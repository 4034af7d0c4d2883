/**
 * The three tables of the shop (users, businesses, products), their column bounds and
 * defaults, and the request schemas derived from them. A schema that leaves a
 * column out is a datatype without that field, so a client cannot supply it.
 */
module Models {
  import opened Outcomes
  import opened Crypto
  import opened Pricing

  const MaxUsername: nat := 20
  const MaxEmail: nat := 200
  const MaxPassword: nat := 100
  const MaxBusinessName: nat := 20
  const MaxPlace: nat := 100
  const MaxLogo: nat := 200
  const MaxProductName: nat := 100
  const MaxCategory: nat := 30
  const MaxImage: nat := 200

  const DefaultPlace: string := "Unspecified"
  const DefaultLogo: string := "default.jpg"
  const DefaultProductImage: string := "productDefault.jpg"

  /** A row of the user table. Times are abstract clock readings. */
  datatype User = User(
    id: nat,
    username: string,
    email: string,
    password: PasswordHash,
    isVerified: bool,
    joinDate: int)

  /** A row of the business table; `owner` is the id of the owning user. */
  datatype Business = Business(
    id: nat,
    name: string,
    city: string,
    region: string,
    description: Option<string>,
    logo: string,
    owner: nat)

  /** A row of the product table; prices are in cents and `businessOwner` is the id of the
      owning business. */
  datatype Product = Product(
    id: nat,
    name: string,
    category: string,
    originalPrice: int,
    newPrice: int,
    percentageDiscount: real,
    offerExpirationDate: int,
    productImage: string,
    businessOwner: nat)

  /** The registration schema: no id (read-only), no verified flag, no join date. */
  datatype UserIn = UserIn(username: string, email: string, password: string)

  /** The business input schema: everything but the id and the owner. The optional fields
      carry defaults, which the update applies when the client leaves them out. */
  datatype BusinessIn = BusinessIn(
    name: string,
    city: Option<string>,
    region: Option<string>,
    description: Option<string>,
    logo: Option<string>)

  /** The product input schema: no id and no discount, so the discount is always computed
      by the server. The two optional fields are None when the client leaves them out. */
  datatype ProductIn = ProductIn(
    name: string,
    category: string,
    originalPrice: int,
    newPrice: int,
    offerExpirationDate: Option<int>,
    productImage: Option<string>)

  predicate UserInValid(u: UserIn) {
    |u.username| <= MaxUsername && |u.email| <= MaxEmail && |u.password| <= MaxPassword
  }

  predicate OptionalFits(o: Option<string>, bound: nat) {
    o.None? || |o.value| <= bound
  }

  predicate BusinessInValid(b: BusinessIn) {
    && |b.name| <= MaxBusinessName
    && OptionalFits(b.city, MaxPlace)
    && OptionalFits(b.region, MaxPlace)
    && OptionalFits(b.logo, MaxLogo)
  }

  predicate ProductInValid(p: ProductIn) {
    && |p.name| <= MaxProductName
    && |p.category| <= MaxCategory
    && PriceValid(p.originalPrice)
    && PriceValid(p.newPrice)
    && OptionalFits(p.productImage, MaxImage)
  }

  predicate UserWellFormed(u: User) {
    |u.username| <= MaxUsername && |u.email| <= MaxEmail
  }

  predicate BusinessWellFormed(b: Business) {
    && |b.name| <= MaxBusinessName
    && |b.city| <= MaxPlace
    && |b.region| <= MaxPlace
    && |b.logo| <= MaxLogo
  }

  /** A stored product: its fields fit and its discount agrees with its two prices. */
  predicate ProductWellFormed(p: Product) {
    && |p.name| <= MaxProductName
    && |p.category| <= MaxCategory
    && PriceValid(p.originalPrice)
    && PriceValid(p.newPrice)
    && |p.productImage| <= MaxImage
    && p.originalPrice > 0
    && p.percentageDiscount == Discount(p.originalPrice, p.newPrice)
  }

  /** The row a registration inserts: unverified, joined now, holding the hash and not the
      password. */
  function NewUser(id: nat, input: UserIn, hash: PasswordHash, now: int): (u: User)
    requires UserInValid(input)
    ensures UserWellFormed(u) && u.id == id
    ensures !u.isVerified && u.joinDate == now
    ensures u.username == input.username && u.email == input.email && u.password == hash
  {
    User(id, input.username, input.email, hash, false, now)
  }

  /** The business created for a new user: named after the user, every other column at its
      default. A username always fits as a business name. */
  function NewBusiness(id: nat, username: string, owner: nat): (b: Business)
    requires |username| <= MaxUsername
    ensures BusinessWellFormed(b) && b.id == id && b.owner == owner && b.name == username
    ensures b.city == DefaultPlace && b.region == DefaultPlace
    ensures b.description.None? && b.logo == DefaultLogo
  {
    Business(id, username, DefaultPlace, DefaultPlace, None, DefaultLogo, owner)
  }

  /** A created product: the client's fields, the defaults for those left out, the discount
      derived from the prices and the owning business. */
  function NewProduct(id: nat, input: ProductIn, today: int, business: nat): (p: Product)
    requires ProductInValid(input) && input.originalPrice > 0
    ensures ProductWellFormed(p) && p.id == id && p.businessOwner == business
    ensures p.name == input.name && p.category == input.category
    ensures p.originalPrice == input.originalPrice && p.newPrice == input.newPrice
    ensures p.offerExpirationDate == input.offerExpirationDate.GetOr(today)
    ensures p.productImage == input.productImage.GetOr(DefaultProductImage)
  {
    Product(id, input.name, input.category, input.originalPrice, input.newPrice,
            Discount(input.originalPrice, input.newPrice),
            input.offerExpirationDate.GetOr(today),
            input.productImage.GetOr(DefaultProductImage), business)
  }

  /** A product update: the fields the client set replace the stored ones, the others keep
      their values, the discount is derived again; the id and the owner never change. */
  function UpdatedProduct(p: Product, input: ProductIn): (q: Product)
    requires ProductWellFormed(p) && ProductInValid(input) && input.originalPrice > 0
    ensures ProductWellFormed(q) && q.id == p.id && q.businessOwner == p.businessOwner
    ensures q.name == input.name && q.category == input.category
    ensures q.originalPrice == input.originalPrice && q.newPrice == input.newPrice
    ensures q.offerExpirationDate == input.offerExpirationDate.GetOr(p.offerExpirationDate)
    ensures q.productImage == input.productImage.GetOr(p.productImage)
  {
    p.(name := input.name, category := input.category,
       originalPrice := input.originalPrice, newPrice := input.newPrice,
       percentageDiscount := Discount(input.originalPrice, input.newPrice),
       offerExpirationDate := input.offerExpirationDate.GetOr(p.offerExpirationDate),
       productImage := input.productImage.GetOr(p.productImage))
  }

  /** A business update: every input field is written, and a field the client left out is
      written with its default, not kept. The id and the owner never change. */
  function UpdatedBusiness(b: Business, input: BusinessIn): (c: Business)
    requires BusinessInValid(input)
    ensures BusinessWellFormed(c) && c.id == b.id && c.owner == b.owner
    ensures c.name == input.name && c.description == input.description
    ensures c.city == input.city.GetOr(DefaultPlace) && c.region == input.region.GetOr(DefaultPlace)
    ensures c.logo == input.logo.GetOr(DefaultLogo)
  {
    b.(name := input.name, city := input.city.GetOr(DefaultPlace),
       region := input.region.GetOr(DefaultPlace), description := input.description,
       logo := input.logo.GetOr(DefaultLogo))
  }
}
