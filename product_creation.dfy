/**
 * The request-validation decision of `POST /api/products`: which error the
 * handler answers with, or which product row (and, optionally, which stock
 * row) it goes on to create.
 */
module ProductCreation {
  import opened Wrappers

  /** A JSON value of the request body, as Python's `json` module decodes it. */
  datatype Json = JNull | JBool(b: bool) | JInt(i: int) | JFloat(f: real) | JString(s: string)

  type Body = map<string, Json>

  /** The fields a new product needs, in the order they are reported. */
  const REQUIRED_FIELDS: seq<string> := ["name", "sku", "company_id"]

  /** `request.get_json() or {}`: a missing or null body reads as an empty one. */
  function RequestData(json: Option<Body>): Body
  {
    json.GetOr(map[])
  }

  /** The fields of `fields` that `data` lacks, in the order of `fields`. */
  function MissingFields(fields: seq<string>, data: Body): (missing: seq<string>)
    ensures forall f :: f in missing <==> f in fields && f !in data
  {
    if fields == [] then []
    else if fields[0] !in data then [fields[0]] + MissingFields(fields[1..], data)
    else MissingFields(fields[1..], data)
  }

  /** `a` is `b` with some elements left out, the others in their original order. */
  predicate IsSubsequence(a: seq<string>, b: seq<string>)
  {
    if a == [] then true
    else if b == [] then false
    else if a[0] == b[0] then IsSubsequence(a[1..], b[1..])
    else IsSubsequence(a, b[1..])
  }

  /** The missing fields keep the order in which `fields` lists them. */
  lemma {:induction false} MissingFieldsInOrder(fields: seq<string>, data: Body)
    ensures IsSubsequence(MissingFields(fields, data), fields)
  {
    if fields != [] {
      MissingFieldsInOrder(fields[1..], data);
      var rest := MissingFields(fields[1..], data);
      if fields[0] in data && rest != [] {
        assert rest[0] in rest;
      }
    }
  }

  /** `', '.join(names)` */
  function Join(names: seq<string>, sep: string): string
  {
    if names == [] then ""
    else if |names| == 1 then names[0]
    else names[0] + sep + Join(names[1..], sep)
  }

  /** The product row to insert; the JSON values are stored as given. */
  datatype NewProduct = NewProduct(name: Json, sku: Json, companyId: Json, price: Json)

  /** The stock row to insert beside the new product. */
  datatype NewInventory = NewInventory(warehouseId: Json, quantity: Json)

  datatype Decision =
    | Reject(status: int, error: string)
    | Create(product: NewProduct, inventory: Option<NewInventory>)

  /**
   * The handler's decision before anything is written. `existingSkus` holds
   * the SKU values for which the lookup by SKU finds a product.
   */
  function Decide(json: Option<Body>, existingSkus: set<Json>): (d: Decision)
    ensures d.Reject? ==> d.status == 400 || d.status == 409
    ensures (d.Reject? && d.status == 400) <==> exists f :: f in REQUIRED_FIELDS && f !in RequestData(json)
    ensures d.Create? <==>
      (forall f :: f in REQUIRED_FIELDS ==> f in RequestData(json)) && RequestData(json)["sku"] !in existingSkus
  {
    var data := RequestData(json);
    var missing := MissingFields(REQUIRED_FIELDS, data);
    if missing != [] then
      assert missing[0] in missing;
      Reject(400, "Missing fields: " + Join(missing, ", "))
    else if data["sku"] in existingSkus then
      Reject(409, "SKU already exists")
    else
      var inventory :=
        if "warehouse_id" in data && "initial_quantity" in data
        then Some(NewInventory(data["warehouse_id"], data["initial_quantity"]))
        else None;
      Create(NewProduct(data["name"], data["sku"], data["company_id"], Get(data, "price", JFloat(0.0))), inventory)
  }

  /** `data.get(key, default)` */
  function Get(data: Body, key: string, default: Json): Json
  {
    if key in data then data[key] else default
  }

  lemma {:induction false} NoneMissing(fields: seq<string>, data: Body)
    requires forall f :: f in fields ==> f in data
    ensures MissingFields(fields, data) == []
  {
    if fields != [] {
      assert fields[0] in fields;
      NoneMissing(fields[1..], data);
    }
  }

  /**
   * A body lacking a required field is rejected with 400 and a message naming
   * the missing fields in the order of the required list, whatever SKUs exist.
   */
  lemma MissingFieldRejected(json: Option<Body>, existingSkus: set<Json>, other: set<Json>, f: string)
    requires f in REQUIRED_FIELDS && f !in RequestData(json)
    ensures Decide(json, existingSkus)
         == Reject(400, "Missing fields: " + Join(MissingFields(REQUIRED_FIELDS, RequestData(json)), ", "))
    ensures Decide(json, existingSkus) == Decide(json, other)
  {
  }

  /** A complete body whose SKU is taken is rejected with 409. */
  lemma DuplicateSkuRejected(json: Option<Body>, existingSkus: set<Json>)
    requires forall f :: f in REQUIRED_FIELDS ==> f in RequestData(json)
    requires RequestData(json)["sku"] in existingSkus
    ensures Decide(json, existingSkus) == Reject(409, "SKU already exists")
  {
    NoneMissing(REQUIRED_FIELDS, RequestData(json));
  }

  /**
   * A complete body with a new SKU creates a product with its name, SKU,
   * company and price (0.00 when absent), and a stock row exactly when both
   * warehouse_id and initial_quantity are given.
   */
  lemma CompleteBodyCreates(json: Option<Body>, existingSkus: set<Json>)
    requires forall f :: f in REQUIRED_FIELDS ==> f in RequestData(json)
    requires RequestData(json)["sku"] !in existingSkus
    ensures var data := RequestData(json);
      var d := Decide(json, existingSkus);
      && d.Create?
      && d.product == NewProduct(data["name"], data["sku"], data["company_id"],
                                 if "price" in data then data["price"] else JFloat(0.0))
      && (d.inventory.Some? <==> "warehouse_id" in data && "initial_quantity" in data)
      && (d.inventory.Some? ==> d.inventory.value == NewInventory(data["warehouse_id"], data["initial_quantity"]))
  {
    NoneMissing(REQUIRED_FIELDS, RequestData(json));
  }

  /** Errors name the missing fields in the order name, sku, company_id. */
  lemma OnlyNameGivenMessage(data: Body, existingSkus: set<Json>)
    requires "name" in data && "sku" !in data && "company_id" !in data
    ensures Decide(Some(data), existingSkus) == Reject(400, "Missing fields: sku, company_id")
  {
    assert MissingFields([], data) == [];
    assert ["sku", "company_id"][1..] == ["company_id"];
    assert MissingFields(["company_id"], data) == ["company_id"];
    assert MissingFields(["sku", "company_id"], data) == ["sku", "company_id"];
    assert REQUIRED_FIELDS[1..] == ["sku", "company_id"];
    assert MissingFields(REQUIRED_FIELDS, data) == ["sku", "company_id"];
  }

  lemma JoinRequiredFields()
    ensures Join(REQUIRED_FIELDS, ", ") == "name, sku, company_id"
  {
  }

  /** An empty or absent body lacks all three fields. */
  lemma EmptyBodyMessage(existingSkus: set<Json>)
    ensures Decide(None, existingSkus) == Reject(400, "Missing fields: name, sku, company_id")
  {
    var data: Body := map[];
    assert MissingFields([], data) == [];
    assert ["sku", "company_id"][1..] == ["company_id"];
    assert MissingFields(["company_id"], data) == ["company_id"];
    assert MissingFields(["sku", "company_id"], data) == ["sku", "company_id"];
    assert REQUIRED_FIELDS[1..] == ["sku", "company_id"];
    assert MissingFields(REQUIRED_FIELDS, data) == REQUIRED_FIELDS;
    JoinRequiredFields();
  }
}
