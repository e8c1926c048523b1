/** The Product collection (backend/models/Product.js). */
module ProductModel {
  import opened Wrappers
  import opened Schema

  /** The closed `category` enum. */
  datatype Category = Electronics | Apparel | Groceries | Books | HomeGoods

  /** The string a category is stored as. */
  function CategoryName(c: Category): string {
    match c
    case Electronics => "Electronics"
    case Apparel => "Apparel"
    case Groceries => "Groceries"
    case Books => "Books"
    case HomeGoods => "Home Goods"
  }

  /** The `enum` validator: a string is accepted exactly when it is some category's name. */
  function ParseCategory(s: string): (r: Option<Category>)
    ensures forall c :: r == Some(c) <==> CategoryName(c) == s
  {
    if s == "Electronics" then Some(Electronics)
    else if s == "Apparel" then Some(Apparel)
    else if s == "Groceries" then Some(Groceries)
    else if s == "Books" then Some(Books)
    else if s == "Home Goods" then Some(HomeGoods)
    else None
  }

  datatype Product = Product(id: Id, name: string, category: Category, price: real)

  /** What every stored product satisfies. */
  predicate ValidProduct(p: Product) {
    |p.name| > 0 && IsTrimmed(p.name) && p.price >= 0.0
  }

  /**
   * Every validation failure of a product whose name is already trimmed, one
   * per failing path, in path order.
   */
  function ProductErrors(name: string, category: string, price: real): (errs: seq<SchemaError>)
    ensures errs == [] <==> |name| > 0 && ParseCategory(category).Some? && price >= 0.0
    ensures Required("name") in errs <==> |name| == 0
    ensures Required("category") in errs <==> |category| == 0
    ensures NotInEnum("category") in errs <==> |category| > 0 && ParseCategory(category).None?
    ensures BelowMin("price") in errs <==> price < 0.0
    ensures forall e :: e in errs ==> e in ProductErrorKinds
  {
    var e1 := RequiredString("name", name);
    var e2 := RequiredEnum("category", category, ParseCategory(category).Some?);
    var e3 := AtLeast("price", price, 0.0);
    assert ParseCategory("").None?;
    assert Required("category") !in e1 + e3 && NotInEnum("category") !in e1 + e3;
    assert BelowMin("price") !in e1 + e2 && Required("name") !in e2 + e3;
    e1 + e2 + e3
  }

  /** The errors a product can raise. */
  const ProductErrorKinds: seq<SchemaError> :=
    [Required("name"), Required("category"), NotInEnum("category"), BelowMin("price")]

  /**
   * Building a Product document: the name is trimmed first, then every
   * path is validated and all failures are reported together.
   */
  function NewProduct(id: Id, name: string, category: string, price: real): (r: Result<Product, seq<SchemaError>>)
    ensures r.Success? <==> |Trim(name)| > 0 && ParseCategory(category).Some? && price >= 0.0
    ensures r.Success? ==> ValidProduct(r.value) && r.value.id == id && r.value.name == Trim(name)
                           && CategoryName(r.value.category) == category && r.value.price == price
    ensures r.Failure? ==> && (Required("name") in r.error <==> |Trim(name)| == 0)
                           && (Required("category") in r.error <==> |category| == 0)
                           && (NotInEnum("category") in r.error <==> |category| > 0 && ParseCategory(category).None?)
                           && (BelowMin("price") in r.error <==> price < 0.0)
    ensures r.Failure? ==> forall e :: e in r.error ==> e in ProductErrorKinds
  {
    var stored := Trim(name);
    var errs := ProductErrors(stored, category, price);
    if errs == [] then Success(Product(id, stored, ParseCategory(category).value, price)) else Failure(errs)
  }
}
