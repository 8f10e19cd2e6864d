/** The admin product controller's store and update actions: the request's
    validation rules, the attribute array they build from it, Eloquent's
    mass-assignment filter, and the tag sync on the product_tags pivot table.
    Request values are PHP values written with the Js.Value shapes; a field
    the request does not carry is `Undefined`. */
module ProductController {
  import opened Common
  import opened Strings
  import opened Js
  import opened Php

  // ---------------------------------------------------------------------
  // Validation

  datatype Table = Categories | Artists | Tags

  /** The validation rules the two actions use. */
  datatype Rule =
    | Required
    | Nullable
    | IsString
    | Max(limit: int)
    | Numeric
    | Min(least: int)
    | Exists(table: Table)
    | Url
    | Json
    | Integer
    | IsArray
    | Boolean
    | In(options: seq<string>)
    | Unique(column: string)

  /** What validation reads besides the request: the ids of the referenced
      tables, the stored products, the product being updated (none on
      store), and the URL and JSON syntax checks, which are parameters. */
  datatype Env = Env(
    categoryIds: set<int>, artistIds: set<int>, tagIds: set<int>,
    products: map<int, Record>, except: Option<int>,
    isUrl: string -> bool, isJson: string -> bool)

  const Statuses: seq<string> := ["draft", "active", "inactive", "out_of_stock"]

  /** The validated fields. */
  const RuleFields: set<string> := {
    "name", "slug", "description", "price", "category_id", "artist_id",
    "featured_image", "gallery_images", "materials", "dimensions",
    "colors_available", "stock_quantity", "sku", "tags", "weight",
    "is_customizable", "customization_options", "status"}

  /** The per-field rules, the same for store and update (update's unique
      rules exclude the product itself, through `Env.except`). */
  function RulesFor(field: string): seq<Rule>
  {
    match field
    case "name" => [Required, IsString, Max(255)]
    case "slug" => [Required, IsString, Max(255), Unique("slug")]
    case "description" => [Required, IsString]
    case "price" => [Required, Numeric, Min(0)]
    case "category_id" => [Required, Exists(Categories)]
    case "artist_id" => [Required, Exists(Artists)]
    case "featured_image" => [Nullable, Url, Max(500)]
    case "gallery_images" => [Nullable, Json]
    case "materials" => [Nullable, Json]
    case "dimensions" => [Nullable, Json]
    case "colors_available" => [Nullable, Json]
    case "stock_quantity" => [Nullable, Integer, Min(0)]
    case "sku" => [Nullable, IsString, Max(100), Unique("sku")]
    case "tags" => [Nullable, IsArray]
    case "weight" => [Nullable, Numeric, Min(0)]
    case "is_customizable" => [Boolean]
    case "customization_options" => [Nullable, Json]
    case "status" => [Required, In(Statuses)]
    case _ => []
  }

  /** The size the max and min rules compare: a number's value, a string's
      length, an array's count. */
  function Size(v: Value): int
  {
    match v
    case Num(n) => n
    case Str(s) => |s|
    case Arr(e) => |e|
    case Obj(f) => |f|
    case _ => 0
  }

  function TableIds(env: Env, table: Table): set<int>
  {
    match table
    case Categories => env.categoryIds
    case Artists => env.artistIds
    case Tags => env.tagIds
  }

  /** Some other stored product has `v` in `column`. */
  predicate Taken(env: Env, column: string, v: Value)
  {
    exists id :: id in env.products && Some(id) != env.except && Get(env.products[id], column) == v
  }

  predicate RulePasses(rule: Rule, v: Value, env: Env)
  {
    match rule
    case Required => Filled(v)
    case Nullable => true
    case IsString => v.Str?
    case Max(limit) => Size(v) <= limit
    case Numeric => v.Num?
    case Min(least) => Size(v) >= least
    case Exists(table) => v.Num? && v.n in TableIds(env, table)
    case Url => v.Str? && env.isUrl(v.s)
    case Json => (v.Str? && env.isJson(v.s)) || v.Num? || v == Bool(true)
    case Integer => v.Num?
    case IsArray => IsPhpArray(v)
    case Boolean => v in {Bool(true), Bool(false), Num(0), Num(1), Str("0"), Str("1")}
    case In(options) => v.Str? && v.s in options
    case Unique(column) => !Taken(env, column, v)
  }

  /** A field passes its rules: an absent field is skipped unless it is
      required; a string that trims to '' meets only the implicit rule
      `required`, which rejects it; a null one is skipped when it is
      nullable; otherwise every rule must hold. */
  predicate FieldPasses(req: Record, field: string, rules: seq<Rule>, env: Env)
  {
    var v := Get(req, field);
    if v.Undefined? && Required !in rules then true
    else if v.Str? && PhpBlank(v.s) then Required !in rules
    else if v.Null? && Nullable in rules then true
    else AllPass(rules, v, env)
  }

  predicate AllPass(rules: seq<Rule>, v: Value, env: Env)
  {
    forall i :: 0 <= i < |rules| ==> RulePasses(rules[i], v, env)
  }

  lemma AllPass2(a: Rule, b: Rule, v: Value, env: Env)
    ensures AllPass([a, b], v, env) <==> RulePasses(a, v, env) && RulePasses(b, v, env)
  {
    if AllPass([a, b], v, env) {
      assert RulePasses([a, b][0], v, env) && RulePasses([a, b][1], v, env);
    }
  }

  lemma AllPass3(a: Rule, b: Rule, c: Rule, v: Value, env: Env)
    ensures AllPass([a, b, c], v, env) <==>
              RulePasses(a, v, env) && RulePasses(b, v, env) && RulePasses(c, v, env)
  {
    if AllPass([a, b, c], v, env) {
      assert RulePasses([a, b, c][0], v, env) && RulePasses([a, b, c][1], v, env);
      assert RulePasses([a, b, c][2], v, env);
    }
  }

  lemma AllPass4(a: Rule, b: Rule, c: Rule, d: Rule, v: Value, env: Env)
    ensures AllPass([a, b, c, d], v, env) <==>
              RulePasses(a, v, env) && RulePasses(b, v, env) && RulePasses(c, v, env) && RulePasses(d, v, env)
  {
    if AllPass([a, b, c, d], v, env) {
      assert RulePasses([a, b, c, d][0], v, env) && RulePasses([a, b, c, d][1], v, env);
      assert RulePasses([a, b, c, d][2], v, env) && RulePasses([a, b, c, d][3], v, env);
    }
  }

  /** `tags.*` => `exists:tags,id`: each value of an array (or object)
      `tags` that does not trim to ''; a blank value, like a blank field,
      skips the rule, which is not implicit. */
  predicate TagIdsExist(req: Record, env: Env)
  {
    var v := Get(req, "tags");
    IsPhpArray(v) ==> forall e :: e in ArrayValues(v) ==>
                        RulePasses(Exists(Tags), e, env) || (e.Str? && PhpBlank(e.s))
  }

  /** The fields whose rules fail, `tags.*` standing for any failing element. */
  function Failures(req: Record, env: Env): set<string>
  {
    (set f | f in RuleFields && !FieldPasses(req, f, RulesFor(f), env))
    + (if TagIdsExist(req, env) then {} else {"tags.*"})
  }

  predicate Validates(req: Record, env: Env)
  {
    Failures(req, env) == {}
  }

  /** A validated field is in the failures exactly when its rules fail. */
  lemma FieldInFailures(req: Record, env: Env, f: string)
    requires f in RuleFields
    ensures f !in Failures(req, env) <==> FieldPasses(req, f, RulesFor(f), env)
  {
  }

  /** How a field's rules decide whether it is reported: an absent field and
      a blank string fail only when the field is required, a null field
      passes when it is nullable, and any other value must pass every rule
      of the field. */
  lemma FieldFailure(req: Record, env: Env, f: string)
    requires f in RuleFields
    ensures Get(req, f).Undefined? ==> (f !in Failures(req, env) <==> Required !in RulesFor(f))
    ensures Get(req, f).Str? && PhpBlank(Get(req, f).s) ==>
              (f !in Failures(req, env) <==> Required !in RulesFor(f))
    ensures Get(req, f).Null? && Nullable in RulesFor(f) ==> f !in Failures(req, env)
    ensures !Get(req, f).Undefined? && !(Get(req, f).Str? && PhpBlank(Get(req, f).s))
            && !(Get(req, f).Null? && Nullable in RulesFor(f)) ==>
              (f !in Failures(req, env) <==>
                 forall i :: 0 <= i < |RulesFor(f)| ==> RulePasses(RulesFor(f)[i], Get(req, f), env))
  {
    FieldInFailures(req, env, f);
    var rules := RulesFor(f);
    if Get(req, f).Undefined? && Required in rules {
      var i :| 0 <= i < |rules| && rules[i] == Required;
      assert !RulePasses(rules[i], Get(req, f), env);
    }
  }

  lemma StatusRules()
    ensures RulesFor("status") == [Required, In(Statuses)]
  {
  }

  /** A status the rules accept is one of the four; each of those is a
      non-blank string. */
  lemma StatusPasses(v: Value, env: Env)
    ensures AllPass([Required, In(Statuses)], v, env) <==> v.Str? && v.s in Statuses
    ensures v.Str? && v.s in Statuses ==> !PhpBlank(v.s)
  {
    AllPass2(Required, In(Statuses), v, env);
    if v.Str? && v.s in Statuses {
      assert !PhpSpace(v.s[0]);
    }
  }

  /** The status passes exactly when it is one of the four statuses. */
  lemma StatusRuleSpec(req: Record, env: Env)
    ensures "status" !in Failures(req, env) <==>
              Get(req, "status").Str? && Get(req, "status").s in Statuses
  {
    FieldInFailures(req, env, "status");
    StatusRules();
    StatusPasses(Get(req, "status"), env);
  }

  /** The price passes exactly when it is a number and not negative. */
  lemma PriceRuleSpec(req: Record, env: Env)
    ensures "price" !in Failures(req, env) <==> Get(req, "price").Num? && Get(req, "price").n >= 0
  {
    FieldInFailures(req, env, "price");
    var v := Get(req, "price");
    var rules := RulesFor("price");
    assert rules == [Required, Numeric, Min(0)];
    AllPass3(Required, Numeric, Min(0), v, env);
  }

  /** The stock quantity may be left out, null or a string that trims to ''
      (the form's default); otherwise it is an integer that is not
      negative. */
  lemma StockRuleSpec(req: Record, env: Env)
    ensures "stock_quantity" !in Failures(req, env) <==>
              Nullish(Get(req, "stock_quantity"))
              || (Get(req, "stock_quantity").Str? && PhpBlank(Get(req, "stock_quantity").s))
              || (Get(req, "stock_quantity").Num? && Get(req, "stock_quantity").n >= 0)
  {
    FieldInFailures(req, env, "stock_quantity");
    var v := Get(req, "stock_quantity");
    var rules := RulesFor("stock_quantity");
    assert rules == [Nullable, Integer, Min(0)];
    AllPass3(Nullable, Integer, Min(0), v, env);
  }

  /** An optional field sent as a string that trims to '' is not checked
      against its other rules: `tags: ''` is not refused as a non-array, nor
      `featured_image: ''` as a non-URL. */
  lemma BlankOptionalPasses(req: Record, env: Env, f: string)
    requires f in RuleFields && Required !in RulesFor(f)
    requires Get(req, f).Str? && PhpBlank(Get(req, f).s)
    ensures f !in Failures(req, env)
  {
    FieldFailure(req, env, f);
  }

  /** Every value of an array (or object) of tags must be the id of a
      stored tag or a string that trims to ''; nothing else about the tag,
      such as being active, is checked. */
  lemma TagRuleSpec(req: Record, env: Env)
    requires IsPhpArray(Get(req, "tags"))
    ensures "tags.*" !in Failures(req, env) <==>
              forall e :: e in ArrayValues(Get(req, "tags")) ==>
                (e.Num? && e.n in env.tagIds) || (e.Str? && PhpBlank(e.s))
  {
    var vals := ArrayValues(Get(req, "tags"));
    if forall e :: e in vals ==> (e.Num? && e.n in env.tagIds) || (e.Str? && PhpBlank(e.s)) {
      assert TagIdsExist(req, env);
    }
  }

  /** A JSON object sent as `tags` passes the `array` rule, and its member
      values are the tags asked for: `{"a": 5}` with tag 5 stored passes and
      asks for tag 5. */
  lemma ObjectTagsPass(req: Record, env: Env)
    requires Get(req, "tags") == Obj(map["a" := Num(5)]) && 5 in env.tagIds
    ensures "tags" !in Failures(req, env) && "tags.*" !in Failures(req, env)
    ensures SubmittedTags(req) == {5}
  {
    var v := Get(req, "tags");
    SingleMemberValues(v);
    ArrayFieldPasses(req, env, "tags");
    TagValuesPass(req, env, 5);
    assert Input(req, "tags") == v;
    assert TagSet({Num(5)}) == {5};
  }

  /** `tags` holding an array or object is not refused by its own rules. */
  lemma ArrayFieldPasses(req: Record, env: Env, f: string)
    requires f == "tags" && IsPhpArray(Get(req, f))
    ensures f !in Failures(req, env)
  {
    assert RulesFor(f) == [Nullable, IsArray];
    AllPass2(Nullable, IsArray, Get(req, f), env);
    FieldInFailures(req, env, f);
  }

  /** Tags whose only value is a stored id pass `tags.*`. */
  lemma TagValuesPass(req: Record, env: Env, id: int)
    requires IsPhpArray(Get(req, "tags")) && ArrayValues(Get(req, "tags")) == {Num(id)}
    requires id in env.tagIds
    ensures "tags.*" !in Failures(req, env)
  {
    assert TagIdsExist(req, env);
  }

  lemma SingleMemberValues(v: Value)
    requires v == Obj(map["a" := Num(5)])
    ensures ArrayValues(v) == {Num(5)}
  {
    assert v.fields["a"] == Num(5);
  }

  /** The slug must be new: on update, only the product itself may already
      carry it. */
  lemma SlugRuleSpec(req: Record, env: Env)
    requires "slug" !in Failures(req, env)
    ensures Get(req, "slug").Str? && 0 < |Get(req, "slug").s| <= 255
    ensures forall id :: id in env.products && Some(id) != env.except ==>
              Get(env.products[id], "slug") != Get(req, "slug")
  {
    FieldInFailures(req, env, "slug");
    var v := Get(req, "slug");
    var rules := RulesFor("slug");
    assert rules == [Required, IsString, Max(255), Unique("slug")];
    AllPass4(Required, IsString, Max(255), Unique("slug"), v, env);
  }

  // ---------------------------------------------------------------------
  // The attribute array

  /** `$request->f ? json_decode($request->f) : null`, with json_decode a
      parameter. */
  function JsonField(req: Record, field: string, decode: string -> Value): Value
  {
    var v := Input(req, field);
    if PhpTruthy(v) then decode(PhpString(v)) else Null
  }

  /** `$request->f ?? d` */
  function OrDefault(req: Record, field: string, d: Value): Value
  {
    var v := Input(req, field);
    if v.Null? then d else v
  }

  const JsonFields: set<string> := {"gallery_images", "materials", "dimensions", "colors_available", "customization_options"}

  /** The seventeen keys of the array both actions pass to create/update. */
  const AttributeNames: set<string> := {
    "name", "slug", "description", "price", "category_id", "artist_id",
    "featured_image", "gallery_images", "materials", "dimensions",
    "colors_available", "stock_quantity", "sku", "weight", "is_customizable",
    "customization_options", "status"}

  /** One entry of that array: the JSON fields decoded, the two defaulted
      fields, and the rest copied from the request. */
  function AttributeValue(req: Record, key: string, decode: string -> Value): Value
  {
    if key in JsonFields then JsonField(req, key, decode)
    else if key == "stock_quantity" then OrDefault(req, key, Num(0))
    else if key == "is_customizable" then OrDefault(req, key, Bool(false))
    else Input(req, key)
  }

  /** The array both actions pass to create/update. */
  function Attributes(req: Record, decode: string -> Value): Record
  {
    map k | k in AttributeNames :: AttributeValue(req, k, decode)
  }


  /** A missing or null stock quantity becomes 0 and a missing or null
      is_customizable becomes false; a JSON field is decoded when PHP counts
      it as true and is null otherwise, so '' and '0' both give null. */
  lemma AttributesSpec(req: Record, decode: string -> Value)
    ensures Nullish(Get(req, "stock_quantity")) ==> Attributes(req, decode)["stock_quantity"] == Num(0)
    ensures !Nullish(Get(req, "stock_quantity")) ==> Attributes(req, decode)["stock_quantity"] == req["stock_quantity"]
    ensures Nullish(Get(req, "is_customizable")) ==> Attributes(req, decode)["is_customizable"] == Bool(false)
    ensures forall f :: f in JsonFields ==>
              (Get(req, f) in {Str(""), Str("0"), Null, Undefined} ==> Attributes(req, decode)[f] == Null)
    ensures forall f :: f in JsonFields ==>
              (Get(req, f).Str? && Get(req, f).s != "" && Get(req, f).s != "0" ==>
                 Attributes(req, decode)[f] == decode(Get(req, f).s))
  {
  }

  /** A request that validates gives a stored status among the four, a price
      that is a number and not negative, and a stock quantity that is a
      number and not negative unless a blank string was submitted, which
      `?? 0` keeps as it is. */
  lemma ValidatedAttributes(req: Record, env: Env, decode: string -> Value)
    requires Validates(req, env)
    ensures Attributes(req, decode)["status"].Str? && Attributes(req, decode)["status"].s in Statuses
    ensures Attributes(req, decode)["price"].Num? && Attributes(req, decode)["price"].n >= 0
    ensures (Attributes(req, decode)["stock_quantity"].Num? && Attributes(req, decode)["stock_quantity"].n >= 0)
            || (Attributes(req, decode)["stock_quantity"] == Get(req, "stock_quantity")
                && Get(req, "stock_quantity").Str? && PhpBlank(Get(req, "stock_quantity").s))
  {
    StatusRuleSpec(req, env);
    PriceRuleSpec(req, env);
    StockRuleSpec(req, env);
  }

  // ---------------------------------------------------------------------
  // Mass assignment

  /** Product's `$fillable`. */
  const Fillable: set<string> := {
    "category_id", "artist_id", "name", "featured_image", "slug", "description",
    "short_description", "price", "original_price", "sku", "stock_quantity",
    "manage_stock", "in_stock", "stock_status", "colors", "material", "size",
    "dimensions", "weight", "meta_title", "meta_description", "tags", "status",
    "badges", "is_featured", "is_custom_order", "rating", "total_reviews",
    "total_sales", "view_count", "featured_until", "finish_type", "theme",
    "processing_time_days", "care_instructions", "ideal_for", "inclusions",
    "safety_notes", "seo_keywords"}

  /** `fill`: the attributes whose names are fillable; the others are
      dropped without notice. */
  function Fill(attrs: Record): (r: Record)
    ensures r.Keys == attrs.Keys * Fillable
    ensures forall k :: k in r ==> r[k] == attrs[k]
  {
    map k | k in attrs && k in Fillable :: attrs[k]
  }

  /** The prepared attributes Product does not declare fillable. */
  const Unfillable: set<string> :=
    {"gallery_images", "materials", "colors_available", "is_customizable", "customization_options"}

  /** What a save writes leaves out five prepared attributes: gallery_images,
      materials, colors_available, is_customizable and customization_options
      are prepared and then dropped, so they are never written. */
  lemma FillDropsSpec(req: Record, decode: string -> Value, k: string)
    requires k in Unfillable
    ensures k in Attributes(req, decode) && k !in Fill(Attributes(req, decode))
  {
    assert k !in Fillable;
  }

  /** The fillable ones are written as prepared. */
  lemma FillKeepsSpec(req: Record, decode: string -> Value)
    ensures forall k :: k in Fillable && k in AttributeNames ==>
              k in Fill(Attributes(req, decode)) && Fill(Attributes(req, decode))[k] == Attributes(req, decode)[k]
  {
  }

  // ---------------------------------------------------------------------
  // Tags

  /** The tag ids a sync with the values of the request's `tags` array
      attaches. */
  function TagSet(vals: set<Value>): set<int>
  {
    set e | e in vals && e.Num? :: e.n
  }

  /** The tag set the request asks for: the values of its `tags` array (or
      object) when it sends one, and no tags otherwise. */
  function SubmittedTags(req: Record): set<int>
  {
    if IsPhpArray(Input(req, "tags")) then TagSet(ArrayValues(Input(req, "tags"))) else {}
  }

  /** For a request that validates, the submitted tags are exactly the ids
      in its array, each of them a stored tag. */
  lemma SubmittedTagsSpec(req: Record, env: Env)
    requires Validates(req, env)
    ensures SubmittedTags(req) <= env.tagIds
    ensures IsPhpArray(Get(req, "tags")) ==>
              forall id :: id in SubmittedTags(req) <==> Num(id) in ArrayValues(Get(req, "tags"))
    ensures !IsPhpArray(Get(req, "tags")) ==> SubmittedTags(req) == {}
  {
    if IsPhpArray(Get(req, "tags")) {
      TagRuleSpec(req, env);
    }
  }

  // ---------------------------------------------------------------------
  // The actions

  datatype Outcome =
    | Redirect(message: string)
    | ValidationFailed(errors: set<string>)
    | NotFound

  /** The products table and the product_tags pivot. */
  class ProductStore {
    var rows: map<int, Record>
    var tags: map<int, set<int>>
    var nextId: int

    /** Ids are below nextId and every pivot entry belongs to a product. */
    ghost predicate Valid()
      reads this
    {
      (forall id :: id in rows ==> id < nextId) && tags.Keys <= rows.Keys
    }

    constructor ()
      ensures rows == map[] && tags == map[] && nextId == 1 && Valid()
    {
      rows := map[];
      tags := map[];
      nextId := 1;
    }

    /** `$product->tags()->sync(ids)`: the product's tags become exactly ids. */
    method Sync(id: int, ids: set<int>)
      modifies this
      ensures tags == old(tags)[id := ids]
      ensures rows == old(rows) && nextId == old(nextId)
    {
      tags := tags[id := ids];
    }

    /** store: validate, create, then sync only for an array (or object) `tags`. */
    method Store(req: Record, env: Env, decode: string -> Value) returns (outcome: Outcome)
      requires Valid() && env.products == rows && env.except == None
      modifies this
      ensures Valid()
      ensures !Validates(req, env) ==>
                outcome == ValidationFailed(Failures(req, env))
                && rows == old(rows) && tags == old(tags) && nextId == old(nextId)
      ensures Validates(req, env) ==>
                outcome == Redirect("Product created successfully.")
                && old(nextId) !in old(rows)
                && rows == old(rows)[old(nextId) := Fill(Attributes(req, decode))]
                && nextId == old(nextId) + 1
                && (IsPhpArray(Input(req, "tags")) ==> tags == old(tags)[old(nextId) := SubmittedTags(req)])
                && (!IsPhpArray(Input(req, "tags")) ==> tags == old(tags))
    {
      var failures := Failures(req, env);
      if failures != {} {
        return ValidationFailed(failures);
      }
      var id := nextId;
      rows := rows[id := Fill(Attributes(req, decode))];
      nextId := nextId + 1;
      var t := Input(req, "tags");
      if IsPhpArray(t) {
        Sync(id, TagSet(ArrayValues(t)));
      }
      outcome := Redirect("Product created successfully.");
    }

    /** update: validate, update the row, then sync the tags twice, with
        the values of an array (or object) `tags` or with none. */
    method Update(id: int, req: Record, env: Env, decode: string -> Value) returns (outcome: Outcome)
      requires Valid() && env.products == rows && env.except == Some(id)
      modifies this
      ensures Valid()
      ensures id !in old(rows) ==>
                outcome == NotFound && rows == old(rows) && tags == old(tags) && nextId == old(nextId)
      ensures id in old(rows) && !Validates(req, env) ==>
                outcome == ValidationFailed(Failures(req, env))
                && rows == old(rows) && tags == old(tags) && nextId == old(nextId)
      ensures id in old(rows) && Validates(req, env) ==>
                outcome == Redirect("Product updated successfully.")
                && rows == old(rows)[id := old(rows)[id] + Fill(Attributes(req, decode))]
                && tags == old(tags)[id := SubmittedTags(req)]
                && nextId == old(nextId)
    {
      if id !in rows {
        return NotFound;
      }
      var failures := Failures(req, env);
      if failures != {} {
        return ValidationFailed(failures);
      }
      rows := rows[id := rows[id] + Fill(Attributes(req, decode))];
      var t := Input(req, "tags");
      if IsPhpArray(t) {
        Sync(id, TagSet(ArrayValues(t)));
      } else {
        Sync(id, {});
      }
      if IsPhpArray(t) {
        Sync(id, TagSet(ArrayValues(t)));
      } else {
        Sync(id, {});
      }
      outcome := Redirect("Product updated successfully.");
    }
  }

  /** After a successful update the product's tags are exactly the stored
      tags the request lists, whatever tags it had before. */
  method UpdateReplacesTags(store: ProductStore, id: int, req: Record, env: Env, decode: string -> Value)
    returns (outcome: Outcome)
    requires store.Valid() && env.products == store.rows && env.except == Some(id)
    requires id in store.rows && Validates(req, env)
    modifies store
    ensures outcome.Redirect?
    ensures id in store.tags && store.tags[id] <= env.tagIds
    ensures IsPhpArray(Get(req, "tags")) ==>
              forall t :: t in store.tags[id] <==> Num(t) in ArrayValues(Get(req, "tags"))
    ensures !IsPhpArray(Get(req, "tags")) ==> store.tags[id] == {}
  {
    SubmittedTagsSpec(req, env);
    outcome := store.Update(id, req, env, decode);
  }
}
