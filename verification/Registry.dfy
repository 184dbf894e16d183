/** The coin-product registry: which store products may be credited, and how a provider app is tied
    to one store application. */
module Registry {
  import opened Wrappers

  type AppId = string
  type ApplicationId = string
  type ProductId = string

  datatype Product = Product(
    app: AppId,
    application: ApplicationId,
    product: ProductId,
    coins: int,
    store: string,
    environment: string)

  /** One parsed row. `approved` is the outcome of the checks on the row's other texts. */
  datatype Row = Row(product: Product, approved: bool)

  // Reading one row

  datatype Json = Text(text: string) | Flag(flag: bool) | Whole(value: int) | OtherValue

  datatype RawRow = NotAnObject | Object(fields: map<string, Json>)

  const TEST := "test"
  const SANDBOX := "revenuecat_sandbox"

  const FIELDS := {
    "app_id", "application_id", "product_id", "coins", "approval_reference", "store", "environment",
    "price_source", "finance_owner_role", "synthetic", "product_type"}

  predicate Lower(c: char) { 'a' <= c <= 'z' }

  predicate Letter(c: char) { 'A' <= c <= 'Z' || Lower(c) }

  predicate Digit(c: char) { '0' <= c <= '9' }

  predicate WordChar(c: char) { Letter(c) || Digit(c) || c == '_' }

  predicate Identifier(s: string) {
    1 <= |s| <= 128 && forall i :: 0 <= i < |s| ==> WordChar(s[i]) || s[i] in ".:/-"
  }

  predicate Segment(s: string) {
    s != "" && Letter(s[0]) && forall i :: 0 <= i < |s| ==> WordChar(s[i])
  }

  /** Two or more segments joined by dots. */
  predicate Dotted(s: string) {
    exists i :: 0 <= i < |s| && s[i] == '.' && Segment(s[..i]) && (Segment(s[i + 1..]) || Dotted(s[i + 1..]))
  }

  predicate ApprovedScope(mode: string, app: AppId, product: ProductId, application: ApplicationId, approval: string) {
    if mode == TEST
    then "synthetic_" <= app && "synthetic_" <= product && "test.synthetic." <= application && "synthetic:" <= approval
    else
      && "app" < app && (forall i :: 3 <= i < |app| ==> WordChar(app[i]) || app[i] == '-')
      && Dotted(application)
      && product != "" && Lower(product[0])
      && (forall i :: 0 <= i < |product| ==> Lower(product[i]) || Digit(product[i]) || product[i] in "_.")
      && approval == "D-036"
  }

  function TextOf(fields: map<string, Json>, name: string): string {
    if name in fields && fields[name].Text? then fields[name].text else ""
  }

  predicate Approved(mode: string, fields: map<string, Json>) {
    && fields.Keys == FIELDS
    && fields["synthetic"] == Flag(mode == TEST)
    && Identifier(TextOf(fields, "app_id")) && Identifier(TextOf(fields, "product_id"))
    && Identifier(TextOf(fields, "application_id")) && Identifier(TextOf(fields, "approval_reference"))
    && ApprovedScope(mode, TextOf(fields, "app_id"), TextOf(fields, "product_id"), TextOf(fields, "application_id"),
                     TextOf(fields, "approval_reference"))
    && fields["price_source"] == Text("store") && fields["finance_owner_role"] == Text("finance")
    && fields["product_type"] == Text("consumable") && fields["coins"].Whole?
  }

  function Parsed(mode: string, raw: RawRow): Row {
    if raw.NotAnObject? then Row(Product("", "", "", 0, "", ""), false)
    else
      var fields := raw.fields;
      var coins := if "coins" in fields && fields["coins"].Whole? then fields["coins"].value else 0;
      Row(Product(TextOf(fields, "app_id"), TextOf(fields, "application_id"), TextOf(fields, "product_id"), coins,
                  TextOf(fields, "store"), TextOf(fields, "environment")),
          Approved(mode, fields))
  }

  function ParsedRows(mode: string, value: seq<RawRow>): (rows: seq<Row>)
    ensures |rows| == |value| && forall i :: 0 <= i < |rows| ==> rows[i] == Parsed(mode, value[i])
  {
    seq(|value|, i requires 0 <= i < |value| => Parsed(mode, value[i]))
  }

  const MAX_COINS := 2147483647
  const MAX_PRODUCTS := 32

  predicate Acceptable(row: Row) {
    && row.approved
    && row.product.store == "PLAY_STORE"
    && row.product.environment == "SANDBOX"
    && 1 <= row.product.coins <= MAX_COINS
  }

  /** Two products may stand in one registry: they are different products, and they share an
      application exactly when they share an app. */
  predicate Compatible(a: Product, b: Product) {
    && (a.app, a.product) != (b.app, b.product)
    && (a.app == b.app <==> a.application == b.application)
  }

  ghost predicate WellFormed(products: seq<Product>) {
    && (forall i :: 0 <= i < |products| ==> Acceptable(Row(products[i], true)))
    && (forall i, j :: 0 <= i < j < |products| ==> Compatible(products[i], products[j]))
  }

  ghost predicate ValidRegistry(rows: seq<Row>) {
    && 1 <= |rows| <= MAX_PRODUCTS
    && (forall i :: 0 <= i < |rows| ==> Acceptable(rows[i]))
    && (forall i, j :: 0 <= i < j < |rows| ==> Compatible(rows[i].product, rows[j].product))
  }

  function Products(rows: seq<Row>): (products: seq<Product>)
    ensures |products| == |rows|
    ensures forall i :: 0 <= i < |rows| ==> products[i] == rows[i].product
  {
    seq(|rows|, i requires 0 <= i < |rows| => rows[i].product)
  }

  /** What the loop keeps in its two lookup structures about the products already accepted. */
  ghost predicate Indexed(products: seq<Product>, seen: set<(AppId, ProductId)>, bound: map<AppId, ApplicationId>) {
    && seen == (set p | p in products :: (p.app, p.product))
    && bound.Keys == (set p | p in products :: p.app)
    && (forall p :: p in products ==> p.app in bound && bound[p.app] == p.application)
  }

  predicate Clashes(p: Product, seen: set<(AppId, ProductId)>, bound: map<AppId, ApplicationId>) {
    || (p.app, p.product) in seen
    || (p.app in bound && bound[p.app] != p.application)
    || exists app :: app in bound && app != p.app && bound[app] == p.application
  }

  lemma ClashMeansIncompatible(
    products: seq<Product>, p: Product, seen: set<(AppId, ProductId)>, bound: map<AppId, ApplicationId>)
    requires Indexed(products, seen, bound)
    ensures Clashes(p, seen, bound) <==> exists q :: q in products && !Compatible(q, p)
  {
  }

  lemma IndexGrows(
    products: seq<Product>, p: Product, seen: set<(AppId, ProductId)>, bound: map<AppId, ApplicationId>)
    requires Indexed(products, seen, bound) && !Clashes(p, seen, bound)
    ensures Indexed(products + [p], seen + {(p.app, p.product)}, bound[p.app := p.application])
  {
    assert forall q :: q in products + [p] <==> q in products || q == p;
  }

  /** Generated fixtures and sandbox scope never mix: no row is acceptable in both modes. */
  lemma ModesAreSeparate(value: seq<RawRow>)
    ensures !(ValidRegistry(ParsedRows(TEST, value)) && ValidRegistry(ParsedRows(SANDBOX, value)))
  {
    if value != [] {
      var raw := value[0];
      assert ParsedRows(TEST, value)[0] == Parsed(TEST, raw) && ParsedRows(SANDBOX, value)[0] == Parsed(SANDBOX, raw);
      assert !(Parsed(TEST, raw).approved && Parsed(SANDBOX, raw).approved);
    }
  }

  /** Accepts exactly the registries in which apps and applications are one-to-one. */
  method LoadRows(rows: seq<Row>) returns (loaded: Option<seq<Product>>)
    ensures loaded.Some? <==> ValidRegistry(rows)
    ensures loaded.Some? ==> loaded.value == Products(rows) && WellFormed(loaded.value)
  {
    if !(1 <= |rows| <= MAX_PRODUCTS) {
      return None;
    }
    var products: seq<Product> := [];
    var seen: set<(AppId, ProductId)> := {};
    var appBindings: map<AppId, ApplicationId> := map[];
    for i := 0 to |rows|
      invariant |products| == i
      invariant forall k :: 0 <= k < i ==> products[k] == rows[k].product && Acceptable(rows[k])
      invariant WellFormed(products)
      invariant Indexed(products, seen, appBindings)
    {
      var row := rows[i];
      if !Acceptable(row) {
        return None;
      }
      ClashMeansIncompatible(products, row.product, seen, appBindings);
      if Clashes(row.product, seen, appBindings) {
        return None;
      }
      IndexGrows(products, row.product, seen, appBindings);
      seen := seen + {(row.product.app, row.product.product)};
      appBindings := appBindings[row.product.app := row.product.application];
      products := products + [row.product];
    }
    assert products == Products(rows);
    return Some(products);
  }

  /** Accepts, in a known mode, exactly the registries of approved rows in which apps and applications are
      one-to-one. */
  method LoadProducts(mode: string, value: seq<RawRow>) returns (loaded: Option<seq<Product>>)
    ensures loaded.Some? <==> (mode == TEST || mode == SANDBOX) && ValidRegistry(ParsedRows(mode, value))
    ensures loaded.Some? ==> loaded.value == Products(ParsedRows(mode, value)) && WellFormed(loaded.value)
  {
    if mode != TEST && mode != SANDBOX {
      return None;
    }
    loaded := LoadRows(ParsedRows(mode, value));
  }

  /** The first product offered for an app. */
  function Scope(products: seq<Product>, app: AppId): (found: Option<Product>)
    ensures found.Some? ==> found.value in products && found.value.app == app
    ensures found.None? ==> forall p :: p in products ==> p.app != app
  {
    if products == [] then None
    else if products[0].app == app then Some(products[0])
    else Scope(products[1..], app)
  }

  /** The product listed for an app under a product identifier. */
  function Listed(products: seq<Product>, app: AppId, product: ProductId): (found: Option<Product>)
    ensures found.Some? ==> found.value in products && found.value.app == app && found.value.product == product
    ensures found.None? ==> forall p :: p in products ==> (p.app, p.product) != (app, product)
  {
    if products == [] then None
    else if products[0].app == app && products[0].product == product then Some(products[0])
    else Listed(products[1..], app, product)
  }

  /** In an accepted registry every product of an app has that app's one application, and no other
      app has it: `Scope` does not depend on the order of the rows. */
  lemma ScopeIsUnique(products: seq<Product>, p: Product)
    requires WellFormed(products) && p in products
    ensures Scope(products, p.app).Some?
    ensures forall q :: q in products ==>
              (q.application == Scope(products, p.app).value.application <==> q.app == p.app)
  {
    var s := Scope(products, p.app).value;
    var k :| 0 <= k < |products| && products[k] == s;
    forall q | q in products
      ensures q.application == s.application <==> q.app == p.app
    {
      var j :| 0 <= j < |products| && products[j] == q;
      if j != k {
        assert Compatible(products[if j < k then j else k], products[if j < k then k else j]);
      }
    }
  }
}
