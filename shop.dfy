/**
 * The request handlers of the shop over an in-memory database. Each handler receives the
 * caller already resolved from the bearer token (GetCurrentUser) and the request body already
 * validated against its schema, as the web framework hands them over; it then reads and
 * changes the three tables. Every handler keeps the schema's constraints (Valid), and each
 * says exactly which table it changes and how, and that on every error nothing changes.
 */
module Shop {
  import opened Outcomes
  import opened Crypto
  import opened Uploads
  import opened Models
  import opened Store
  import opened Auth

  const UsernameExists: string := "Username already exists"
  const EmailExists: string := "Email already exists"
  const UsernameOrEmailExists: string := "Username or Email already exists"
  const NotAllowed: string := "Not authenticated to perform this acton"
  const NotAllowedOrInvalid: string := "Not authenticated or invalid input"
  const ImageUrlPrefix: string := "localhost:8000/static/images/"

  /** The message a successful registration answers with. */
  function Greeting(username: string): string {
    "Hello " + username + ", thanks for choosing our services."
  }

  /** The two pages the verification link can show. */
  datatype VerificationPage = AlreadyVerifiedPage(username: string) | VerifiedPage(username: string)

  /** `get_current_user`: the user a server-signed token names, and 401 for every failure,
      including a well-signed token whose user no longer exists. */
  function GetCurrentUser(users: Users, token: Token, secret: Secret): (r: Reply<User>)
    ensures r.Ok? <==> SignedBy(token, secret) && token.claims.id in users
    ensures r.Ok? ==> r.data == users[token.claims.id]
    ensures !r.Ok? ==> r == Raise(Unauthorized, CredentialsRefused)
  {
    match Decode(token, secret, [HS256])
    case None => Raise(Unauthorized, CredentialsRefused)
    case Some(c) => if c.id in users then Ok(users[c.id]) else Raise(Unauthorized, CredentialsRefused)
  }

  /** The handlers' resolution and the verification link's agree on every token they accept;
      where the link tells a missing user apart (404), the handlers answer 401 like any other
      failure. */
  lemma CurrentUserAgreesWithVeryToken(users: Users, token: Token, secret: Secret)
    ensures VeryToken(users, token, secret).Ok? ==> GetCurrentUser(users, token, secret) == VeryToken(users, token, secret)
    ensures VeryToken(users, token, secret) == Raise(NotFound, UserGone) ==>
              GetCurrentUser(users, token, secret) == Raise(Unauthorized, CredentialsRefused)
  {
  }

  /** Users are never deleted, never renamed, never given another e-mail or password, and a
      verified user stays verified. */
  predicate UsersPersist(before: Users, after: Users) {
    forall id :: id in before ==>
      && id in after
      && after[id].username == before[id].username
      && after[id].email == before[id].email
      && after[id].password == before[id].password
      && (before[id].isVerified ==> after[id].isVerified)
  }

  class Shop {
    var users: Users
    var businesses: Businesses
    var products: Products
    /** The next ids the auto-incremented primary keys hand out. */
    var nextUserId: nat
    var nextBusinessId: nat
    var nextProductId: nat

    ghost predicate Valid()
      reads this
    {
      && TablesValid(users, businesses, products)
      && (forall id :: id in users ==> id < nextUserId)
      && (forall id :: id in businesses ==> id < nextBusinessId)
      && (forall id :: id in products ==> id < nextProductId)
    }

    /** `u` is a row of the user table, as the token resolution returns it. */
    ghost predicate IsUser(u: User)
      reads this
    {
      u.id in users && users[u.id] == u
    }

    constructor ()
      ensures Valid()
      ensures users == map[] && businesses == map[] && products == map[]
      ensures nextUserId == 1 && nextBusinessId == 1 && nextProductId == 1
    {
      users, businesses, products := map[], map[], map[];
      nextUserId, nextBusinessId, nextProductId := 1, 1, 1;
    }

    /** `create_business`, the hook the ORM runs after every save of a user row. Only for a
        newly inserted row does it create a business, named after the user and owned by them;
        when that name is already a business's, the insert fails (`clash`) and nothing is
        created. */
    method CreateBusiness(instance: User, created: bool) returns (clash: bool)
      requires Valid() && IsUser(instance)
      requires created ==> forall id :: id in businesses ==> businesses[id].owner != instance.id
      modifies this
      ensures Valid()
      ensures users == old(users) && products == old(products)
      ensures nextUserId == old(nextUserId) && nextProductId == old(nextProductId)
      ensures !created ==> !clash && unchanged(this)
      ensures created && BusinessNameTaken(old(businesses), instance.username) ==> clash && unchanged(this)
      ensures created && !BusinessNameTaken(old(businesses), instance.username) ==>
        && !clash
        && businesses == old(businesses)[old(nextBusinessId) := NewBusiness(old(nextBusinessId), instance.username, instance.id)]
        && nextBusinessId == old(nextBusinessId) + 1
    {
      clash := false;
      if created {
        if BusinessNameTaken(businesses, instance.username) {
          clash := true;
          return;
        }
        var business := NewBusiness(nextBusinessId, instance.username, instance.id);
        InsertBusinessKeepsValid(users, businesses, products, business);
        businesses := businesses[business.id := business];
        nextBusinessId := nextBusinessId + 1;
      }
    }

    /** `user_registration`: refused with 400 when the username is taken, then when the e-mail
        is taken, creating nothing. Otherwise the user is inserted, unverified and holding the
        hash of the password, and the hook creates their business; if the business name is
        already in use the insert of the business fails, the handler answers 400 and the user
        row stays without a business. */
    method Register(input: UserIn, salt: Salt, now: int) returns (r: Reply<string>)
      requires Valid() && UserInValid(input)
      modifies this
      ensures Valid()
      ensures UsersPersist(old(users), users)
      ensures products == old(products) && nextProductId == old(nextProductId)
      ensures UsernameTaken(old(users), input.username) ==>
        r == Raise(BadRequest, UsernameExists) && unchanged(this)
      ensures !UsernameTaken(old(users), input.username) && EmailTaken(old(users), input.email) ==>
        r == Raise(BadRequest, EmailExists) && unchanged(this)
      ensures !UsernameTaken(old(users), input.username) && !EmailTaken(old(users), input.email) ==>
        && users == old(users)[old(nextUserId) := NewUser(old(nextUserId), input, Hash(input.password, salt), now)]
        && nextUserId == old(nextUserId) + 1
        && (if BusinessNameTaken(old(businesses), input.username) then
              && r == Raise(BadRequest, UsernameOrEmailExists)
              && businesses == old(businesses) && nextBusinessId == old(nextBusinessId)
            else
              && r == Ok(Greeting(input.username))
              && businesses == old(businesses)[old(nextBusinessId) := NewBusiness(old(nextBusinessId), input.username, old(nextUserId))]
              && nextBusinessId == old(nextBusinessId) + 1)
    {
      if UsernameTaken(users, input.username) {
        r := Raise(BadRequest, UsernameExists);
        return;
      }
      if EmailTaken(users, input.email) {
        r := Raise(BadRequest, EmailExists);
        return;
      }
      var hashed := Hash(input.password, salt);
      var user := NewUser(nextUserId, input, hashed, now);
      InsertUserKeepsValid(users, businesses, products, user);
      users := users[user.id := user];
      nextUserId := nextUserId + 1;
      var clash := CreateBusiness(user, true);
      if clash {
        r := Raise(BadRequest, UsernameOrEmailExists);
      } else {
        r := Ok(Greeting(input.username));
      }
    }

    /** `email_verification`: the token's failures pass through (404 for a missing user, 401
        otherwise); an already verified user gets the "already verified" page and nothing is
        written; otherwise the user becomes verified, and saving the row creates no business. */
    method VerifyEmail(token: Token, secret: Secret) returns (r: Reply<VerificationPage>)
      requires Valid()
      modifies this
      ensures Valid()
      ensures UsersPersist(old(users), users)
      ensures businesses == old(businesses) && products == old(products)
      ensures nextUserId == old(nextUserId) && nextBusinessId == old(nextBusinessId) && nextProductId == old(nextProductId)
      ensures var v := VeryToken(old(users), token, secret);
        && (v.Raise? ==> r == Raise(v.status, v.message) && unchanged(this))
        && (v.Ok? && v.data.isVerified ==> r == Ok(AlreadyVerifiedPage(v.data.username)) && unchanged(this))
        && (v.Ok? && !v.data.isVerified ==>
              r == Ok(VerifiedPage(v.data.username)) && users == old(users)[v.data.id := v.data.(isVerified := true)])
    {
      var v := VeryToken(users, token, secret);
      if v.Raise? {
        r := Raise(v.status, v.message);
        return;
      }
      var user := v.data;
      if user.isVerified {
        r := Ok(AlreadyVerifiedPage(user.username));
        return;
      }
      user := user.(isVerified := true);
      ReplaceUserKeepsValid(users, businesses, products, user);
      users := users[user.id := user];
      var clash := CreateBusiness(user, false);
      r := Ok(VerifiedPage(user.username));
    }

    /** `add_new_product`: a non-positive original price gives `{"status": "error"}`; otherwise
        the product is created in the caller's business with the derived discount (404 when the
        caller has no business, 422 when the name is taken). */
    method AddProduct(caller: User, input: ProductIn, today: int) returns (r: Reply<Product>)
      requires Valid() && IsUser(caller) && ProductInValid(input)
      modifies this
      ensures Valid()
      ensures users == old(users) && businesses == old(businesses)
      ensures nextUserId == old(nextUserId) && nextBusinessId == old(nextBusinessId)
      ensures input.originalPrice <= 0 ==> r == StatusError(None) && unchanged(this)
      ensures input.originalPrice > 0 ==>
        match BusinessOwnedBy(old(businesses), caller.id)
        case None => r == StoreError(NotFound) && unchanged(this)
        case Some(b) =>
          if ProductNameTaken(old(products), input.name) then r == StoreError(Unprocessable) && unchanged(this)
          else
            && r == Ok(NewProduct(old(nextProductId), input, today, b.id))
            && products == old(products)[old(nextProductId) := r.data]
            && nextProductId == old(nextProductId) + 1
    {
      if input.originalPrice <= 0 {
        r := StatusError(None);
        return;
      }
      var owned := BusinessOwnedBy(businesses, caller.id);
      if owned.None? {
        r := StoreError(NotFound);
        return;
      }
      if ProductNameTaken(products, input.name) {
        r := StoreError(Unprocessable);
        return;
      }
      var product := NewProduct(nextProductId, input, today, owned.value.id);
      InsertProductKeepsValid(users, businesses, products, product);
      products := products[product.id := product];
      nextProductId := nextProductId + 1;
      r := Ok(product);
    }

    /** `update_product`: 404 for a missing product; 401 unless the caller owns it through its
        business and the original price is positive; otherwise the set fields are written and
        the discount derived again (422 when the new name is another product's). */
    method UpdateProduct(caller: User, id: nat, input: ProductIn) returns (r: Reply<Product>)
      requires Valid() && IsUser(caller) && ProductInValid(input)
      modifies this
      ensures Valid()
      ensures users == old(users) && businesses == old(businesses)
      ensures nextUserId == old(nextUserId) && nextBusinessId == old(nextBusinessId) && nextProductId == old(nextProductId)
      ensures id !in old(products) ==> r == StoreError(NotFound) && unchanged(this)
      ensures id in old(products) && (ProductOwner(old(users), old(businesses), old(products), id) != caller.id || input.originalPrice <= 0) ==>
        r == Raise(Unauthorized, NotAllowedOrInvalid) && unchanged(this)
      ensures id in old(products) && ProductOwner(old(users), old(businesses), old(products), id) == caller.id && input.originalPrice > 0 ==>
        if ProductNameClash(old(products), input.name, id) then r == StoreError(Unprocessable) && unchanged(this)
        else
          && r == Ok(UpdatedProduct(old(products)[id], input))
          && products == old(products)[id := r.data]
    {
      if id !in products {
        r := StoreError(NotFound);
        return;
      }
      var product := products[id];
      var owner := businesses[product.businessOwner].owner;
      if caller.id == owner && input.originalPrice > 0 {
        var updated := UpdatedProduct(product, input);
        if ProductNameClash(products, updated.name, id) {
          r := StoreError(Unprocessable);
          return;
        }
        ReplaceProductKeepsValid(users, businesses, products, updated);
        products := products[id := updated];
        r := Ok(updated);
      } else {
        r := Raise(Unauthorized, NotAllowedOrInvalid);
      }
    }

    /** `delete_product`: 404 for a missing product, 401 unless the caller owns it through its
        business; otherwise the product, and nothing else, is removed. */
    method DeleteProduct(caller: User, id: nat) returns (r: Reply<()>)
      requires Valid() && IsUser(caller)
      modifies this
      ensures Valid()
      ensures users == old(users) && businesses == old(businesses)
      ensures nextUserId == old(nextUserId) && nextBusinessId == old(nextBusinessId) && nextProductId == old(nextProductId)
      ensures id !in old(products) ==> r == StoreError(NotFound) && unchanged(this)
      ensures id in old(products) && ProductOwner(old(users), old(businesses), old(products), id) != caller.id ==>
        r == Raise(Unauthorized, NotAllowed) && unchanged(this)
      ensures id in old(products) && ProductOwner(old(users), old(businesses), old(products), id) == caller.id ==>
        r == Ok(()) && products == old(products) - {id}
    {
      if id !in products {
        r := StoreError(NotFound);
        return;
      }
      var owner := businesses[products[id].businessOwner].owner;
      if caller.id == owner {
        RemoveProductKeepsValid(users, businesses, products, id);
        products := products - {id};
        r := Ok(());
      } else {
        r := Raise(Unauthorized, NotAllowed);
      }
    }

    /** `update_business` as its author evidently intended: 404 for a missing business, 401
        unless the caller owns it; otherwise every input field is written (left-out fields with
        their defaults) and saved (422 when the new name is another business's). */
    method UpdateBusiness(caller: User, id: nat, input: BusinessIn) returns (r: Reply<Business>)
      requires Valid() && IsUser(caller) && BusinessInValid(input)
      modifies this
      ensures Valid()
      ensures users == old(users) && products == old(products)
      ensures nextUserId == old(nextUserId) && nextBusinessId == old(nextBusinessId) && nextProductId == old(nextProductId)
      ensures id !in old(businesses) ==> r == StoreError(NotFound) && unchanged(this)
      ensures id in old(businesses) && old(businesses)[id].owner != caller.id ==>
        r == Raise(Unauthorized, NotAllowedOrInvalid) && unchanged(this)
      ensures id in old(businesses) && old(businesses)[id].owner == caller.id ==>
        if BusinessNameClash(old(businesses), input.name, id) then r == StoreError(Unprocessable) && unchanged(this)
        else
          && r == Ok(UpdatedBusiness(old(businesses)[id], input))
          && businesses == old(businesses)[id := r.data]
    {
      if id !in businesses {
        r := StoreError(NotFound);
        return;
      }
      var business := businesses[id];
      if caller.id == business.owner {
        var updated := UpdatedBusiness(business, input);
        if BusinessNameClash(businesses, updated.name, id) {
          r := StoreError(Unprocessable);
          return;
        }
        ReplaceBusinessKeepsValid(users, businesses, products, updated);
        businesses := businesses[id := updated];
        r := Ok(updated);
      } else {
        r := Raise(Unauthorized, NotAllowedOrInvalid);
      }
    }

    /** `update_business` as written: the save is called without being awaited, so it never
        runs. The owner is answered with the updated business, but the table keeps the old row. */
    method UpdateBusinessAsWritten(caller: User, id: nat, input: BusinessIn) returns (r: Reply<Business>)
      requires Valid() && IsUser(caller) && BusinessInValid(input)
      ensures id !in businesses ==> r == StoreError(NotFound)
      ensures id in businesses && businesses[id].owner != caller.id ==> r == Raise(Unauthorized, NotAllowedOrInvalid)
      ensures id in businesses && businesses[id].owner == caller.id ==> r == Ok(UpdatedBusiness(businesses[id], input))
    {
      if id !in businesses {
        r := StoreError(NotFound);
        return;
      }
      var business := businesses[id];
      if caller.id == business.owner {
        r := Ok(UpdatedBusiness(business, input));
      } else {
        r := Raise(Unauthorized, NotAllowedOrInvalid);
      }
    }

    /** The profile-image upload: a file name without a dot fails, a refused extension answers
        `{"status": "error"}` before anything is stored; otherwise the caller's business gets the
        random stored name as its logo (404 when the caller has no business). The owner check
        of the source always passes, because the business was looked up by its owner. */
    method UploadProfileImage(caller: User, filename: string, random: seq<Byte>) returns (r: Reply<string>)
      requires Valid() && IsUser(caller) && |random| == 10
      modifies this
      ensures Valid()
      ensures users == old(users) && products == old(products)
      ensures nextUserId == old(nextUserId) && nextBusinessId == old(nextBusinessId) && nextProductId == old(nextProductId)
      ensures !UploadExtension(filename).Ok? ==> r == UploadExtension(filename).Forward() && unchanged(this)
      ensures UploadExtension(filename).Ok? && BusinessOwnedBy(old(businesses), caller.id).None? ==>
        r == StoreError(NotFound) && unchanged(this)
      ensures UploadExtension(filename).Ok? && BusinessOwnedBy(old(businesses), caller.id).Some? ==>
        var name := StoredName(random, UploadExtension(filename).data);
        var b := BusinessOwnedBy(old(businesses), caller.id).value;
        && r == Ok(ImageUrlPrefix + name)
        && businesses == old(businesses)[b.id := b.(logo := name)]
    {
      var ext := UploadExtension(filename);
      if !ext.Ok? {
        r := ext.Forward();
        return;
      }
      var name := StoredName(random, ext.data);
      var owned := BusinessOwnedBy(businesses, caller.id);
      if owned.None? {
        r := StoreError(NotFound);
        return;
      }
      var business := owned.value;
      if business.owner == caller.id {
        ReplaceBusinessKeepsValid(users, businesses, products, business.(logo := name));
        businesses := businesses[business.id := business.(logo := name)];
        r := Ok(ImageUrlPrefix + name);
      } else {
        r := Raise(Unauthorized, NotAllowed);
      }
    }

    /** The product-image upload: the same extension check; then 404 for a missing product, 401
        unless the caller owns it through its business; otherwise the product's image becomes
        the random stored name, and the handler answers with no body. */
    method UploadProductImage(caller: User, id: nat, filename: string, random: seq<Byte>) returns (r: Reply<()>)
      requires Valid() && IsUser(caller) && |random| == 10
      modifies this
      ensures Valid()
      ensures users == old(users) && businesses == old(businesses)
      ensures nextUserId == old(nextUserId) && nextBusinessId == old(nextBusinessId) && nextProductId == old(nextProductId)
      ensures !UploadExtension(filename).Ok? ==> r == UploadExtension(filename).Forward() && unchanged(this)
      ensures UploadExtension(filename).Ok? && id !in old(products) ==> r == StoreError(NotFound) && unchanged(this)
      ensures UploadExtension(filename).Ok? && id in old(products) && ProductOwner(old(users), old(businesses), old(products), id) != caller.id ==>
        r == Raise(Unauthorized, NotAllowed) && unchanged(this)
      ensures UploadExtension(filename).Ok? && id in old(products) && ProductOwner(old(users), old(businesses), old(products), id) == caller.id ==>
        && r == Ok(())
        && products == old(products)[id := old(products)[id].(productImage := StoredName(random, UploadExtension(filename).data))]
    {
      var ext := UploadExtension(filename);
      if !ext.Ok? {
        r := ext.Forward();
        return;
      }
      var name := StoredName(random, ext.data);
      if id !in products {
        r := StoreError(NotFound);
        return;
      }
      var product := products[id];
      var owner := businesses[product.businessOwner].owner;
      if owner == caller.id {
        ReplaceProductKeepsValid(users, businesses, products, product.(productImage := name));
        products := products[id := product.(productImage := name)];
        r := Ok(());
      } else {
        r := Raise(Unauthorized, NotAllowed);
      }
    }
  }

  /** Following a verification link twice: the second visit finds the user verified, answers
      with the "already verified" page and writes nothing; a refused token is refused the same
      way both times. */
  method VerifyTwice(shop: Shop, token: Token, secret: Secret)
    returns (first: Reply<VerificationPage>, second: Reply<VerificationPage>, ghost between: Users)
    requires shop.Valid()
    modifies shop
    ensures shop.Valid() && shop.users == between
    ensures first.Ok? ==> second == Ok(AlreadyVerifiedPage(first.data.username))
    ensures !first.Ok? ==> second == first
  {
    first := shop.VerifyEmail(token, secret);
    between := shop.users;
    second := shop.VerifyEmail(token, secret);
  }

  /** The update of a business as written answers with the new city while the table keeps the
      default one; the evidently intended update stores it. */
  method LostBusinessUpdate() returns (answered: Business, kept: Business, stored: Business)
    ensures answered.city == "Paris" && kept.city == DefaultPlace && stored.city == "Paris"
  {
    var shop := new Shop();
    var registered := shop.Register(UserIn("bob", "bob@example.com", "secret"), 0, 0);
    var bob := shop.users[1];
    var input := BusinessIn("bob", Some("Paris"), None, None, None);
    var lost := shop.UpdateBusinessAsWritten(bob, 1, input);
    answered, kept := lost.data, shop.businesses[1];
    var saved := shop.UpdateBusiness(bob, 1, input);
    stored := shop.businesses[1];
  }
}
