/**
 * The database as three maps from primary key to row, the constraints the schema declares on
 * them (unique columns, foreign keys, column bounds), and the queries the handlers run.
 */
module Store {
  import opened Outcomes
  import opened Models

  type Users = map<nat, User>
  type Businesses = map<nat, Business>
  type Products = map<nat, Product>

  /** Every row is stored under its own id. */
  predicate UserKeys(users: Users) {
    forall id :: id in users ==> users[id].id == id
  }

  predicate BusinessKeys(businesses: Businesses) {
    forall id :: id in businesses ==> businesses[id].id == id
  }

  predicate ProductKeys(products: Products) {
    forall id :: id in products ==> products[id].id == id
  }

  predicate UniqueUsernames(users: Users) {
    forall i, j :: i in users && j in users && users[i].username == users[j].username ==> i == j
  }

  predicate UniqueEmails(users: Users) {
    forall i, j :: i in users && j in users && users[i].email == users[j].email ==> i == j
  }

  predicate UniqueBusinessNames(businesses: Businesses) {
    forall i, j :: i in businesses && j in businesses && businesses[i].name == businesses[j].name ==> i == j
  }

  predicate UniqueProductNames(products: Products) {
    forall i, j :: i in products && j in products && products[i].name == products[j].name ==> i == j
  }

  /** No user owns two businesses, so looking a business up by its owner finds at most one.
      The foreign key allows several; this is kept by the handlers, not by the schema. */
  predicate OneBusinessPerOwner(businesses: Businesses) {
    forall i, j :: i in businesses && j in businesses && businesses[i].owner == businesses[j].owner ==> i == j
  }

  /** The owner chain: every business has an owning user, every product an owning business. */
  predicate OwnersExist(users: Users, businesses: Businesses, products: Products) {
    && (forall id :: id in businesses ==> businesses[id].owner in users)
    && (forall id :: id in products ==> products[id].businessOwner in businesses)
  }

  predicate RowsWellFormed(users: Users, businesses: Businesses, products: Products) {
    && (forall id :: id in users ==> UserWellFormed(users[id]))
    && (forall id :: id in businesses ==> BusinessWellFormed(businesses[id]))
    && (forall id :: id in products ==> ProductWellFormed(products[id]))
  }

  /** Everything that holds of a database state: the keys, uniqueness, bounds and foreign keys
      the schema declares, and two invariants the handlers keep on top of it. The schema lets a
      user own many businesses, but only the registration hook creates one, so no user owns
      two (OneBusinessPerOwner); and the product handlers store only positive original prices
      (ProductWellFormed). */
  predicate TablesValid(users: Users, businesses: Businesses, products: Products) {
    && UserKeys(users)
    && BusinessKeys(businesses)
    && ProductKeys(products)
    && UniqueUsernames(users)
    && UniqueEmails(users)
    && UniqueBusinessNames(businesses)
    && UniqueProductNames(products)
    && OneBusinessPerOwner(businesses)
    && OwnersExist(users, businesses, products)
    && RowsWellFormed(users, businesses, products)
  }

  /** `User.filter(username=name)`: the ids of the users with that name. */
  function UsersNamed(users: Users, name: string): set<nat> {
    set id | id in users && users[id].username == name
  }

  /** `User.filter(email=email)`: the ids of the users with that e-mail. */
  function UsersWithEmail(users: Users, email: string): set<nat> {
    set id | id in users && users[id].email == email
  }

  /** `User.filter(username=name).exists()`: the filter is not empty exactly when some user
      has that name. */
  function UsernameTaken(users: Users, name: string): (taken: bool)
    ensures taken <==> exists id :: id in users && users[id].username == name
  {
    var named := UsersNamed(users, name);
    assert forall id | id in users :: id in named <==> users[id].username == name;
    named != {}
  }

  /** `User.filter(email=email).exists()`: the filter is not empty exactly when some user has
      that e-mail. */
  function EmailTaken(users: Users, email: string): (taken: bool)
    ensures taken <==> exists id :: id in users && users[id].email == email
  {
    var holders := UsersWithEmail(users, email);
    assert forall id | id in users :: id in holders <==> users[id].email == email;
    holders != {}
  }

  /** Some business already has this name. */
  predicate BusinessNameTaken(businesses: Businesses, name: string) {
    exists id :: id in businesses && businesses[id].name == name
  }

  /** Some product already has this name. */
  predicate ProductNameTaken(products: Products, name: string) {
    exists id :: id in products && products[id].name == name
  }

  /** Another business than `self` already has this name. */
  predicate BusinessNameClash(businesses: Businesses, name: string, self: nat) {
    exists id :: id in businesses && id != self && businesses[id].name == name
  }

  /** Another product than `self` already has this name. */
  predicate ProductNameClash(products: Products, name: string, self: nat) {
    exists id :: id in products && id != self && products[id].name == name
  }

  /** `User.get(username=name)`: the one user with that name, or None where the ORM raises
      DoesNotExist. */
  function UserNamed(users: Users, name: string): (r: Option<User>)
    requires UserKeys(users) && UniqueUsernames(users)
    ensures r.Some? <==> UsernameTaken(users, name)
    ensures r.Some? ==> r.value.id in users && users[r.value.id] == r.value && r.value.username == name
  {
    if UsernameTaken(users, name) then
      var id :| id in users && users[id].username == name;
      Some(users[id])
    else None
  }

  /** `Business.get(owner=user)`: the business the user owns, or None where the ORM raises
      DoesNotExist. */
  function BusinessOwnedBy(businesses: Businesses, owner: nat): (r: Option<Business>)
    requires BusinessKeys(businesses) && OneBusinessPerOwner(businesses)
    ensures r.Some? <==> exists id :: id in businesses && businesses[id].owner == owner
    ensures r.Some? ==> r.value.id in businesses && businesses[r.value.id] == r.value && r.value.owner == owner
  {
    if exists id :: id in businesses && businesses[id].owner == owner then
      var id :| id in businesses && businesses[id].owner == owner;
      Some(businesses[id])
    else None
  }

  /** The owner chain of a product, `await (await product.business_owner).owner`: an existing
      user, and the business holding the product is the one that user owns. */
  function ProductOwner(users: Users, businesses: Businesses, products: Products, id: nat): (owner: nat)
    requires TablesValid(users, businesses, products) && id in products
    ensures owner in users
    ensures BusinessOwnedBy(businesses, owner) == Some(businesses[products[id].businessOwner])
  {
    businesses[products[id].businessOwner].owner
  }

  /** Inserting a user whose username and e-mail are free keeps every constraint. */
  lemma InsertUserKeepsValid(users: Users, businesses: Businesses, products: Products, u: User)
    requires TablesValid(users, businesses, products)
    requires u.id !in users && UserWellFormed(u)
    requires !UsernameTaken(users, u.username) && !EmailTaken(users, u.email)
    ensures TablesValid(users[u.id := u], businesses, products)
  {
  }

  /** Re-saving a user row under the same username and e-mail keeps every constraint. */
  lemma ReplaceUserKeepsValid(users: Users, businesses: Businesses, products: Products, u: User)
    requires TablesValid(users, businesses, products)
    requires u.id in users && UserWellFormed(u)
    requires u.username == users[u.id].username && u.email == users[u.id].email
    ensures TablesValid(users[u.id := u], businesses, products)
  {
  }

  /** Inserting a business with a free name for a user who owns none keeps every constraint. */
  lemma InsertBusinessKeepsValid(users: Users, businesses: Businesses, products: Products, b: Business)
    requires TablesValid(users, businesses, products)
    requires b.id !in businesses && BusinessWellFormed(b) && b.owner in users
    requires !BusinessNameTaken(businesses, b.name)
    requires forall id :: id in businesses ==> businesses[id].owner != b.owner
    ensures TablesValid(users, businesses[b.id := b], products)
  {
  }

  /** Rewriting a business, keeping its owner and taking no other business's name, keeps every
      constraint. */
  lemma ReplaceBusinessKeepsValid(users: Users, businesses: Businesses, products: Products, b: Business)
    requires TablesValid(users, businesses, products)
    requires b.id in businesses && BusinessWellFormed(b) && b.owner == businesses[b.id].owner
    requires !BusinessNameClash(businesses, b.name, b.id)
    ensures TablesValid(users, businesses[b.id := b], products)
  {
  }

  /** Inserting a well-formed product with a free name into an existing business keeps every
      constraint. */
  lemma InsertProductKeepsValid(users: Users, businesses: Businesses, products: Products, p: Product)
    requires TablesValid(users, businesses, products)
    requires p.id !in products && ProductWellFormed(p) && p.businessOwner in businesses
    requires !ProductNameTaken(products, p.name)
    ensures TablesValid(users, businesses, products[p.id := p])
  {
  }

  /** Rewriting a product, keeping it in an existing business and taking no other product's
      name, keeps every constraint. */
  lemma ReplaceProductKeepsValid(users: Users, businesses: Businesses, products: Products, p: Product)
    requires TablesValid(users, businesses, products)
    requires p.id in products && ProductWellFormed(p) && p.businessOwner in businesses
    requires !ProductNameClash(products, p.name, p.id)
    ensures TablesValid(users, businesses, products[p.id := p])
  {
  }

  /** Removing a product keeps every constraint: nothing refers to a product. */
  lemma RemoveProductKeepsValid(users: Users, businesses: Businesses, products: Products, id: nat)
    requires TablesValid(users, businesses, products)
    ensures TablesValid(users, businesses, products - {id})
  {
  }
}
