/** The user controllers (controllers/userController.js and
    nodeProject/controllers/userController.js): reading a cart back with
    recomputed totals, the reset-token flow (`forgotPassword`,
    `resetPassword`), and `registerUser`. The two files agree on the first
    three; `registerUser` follows the nodeProject copy. */
module UserController {
  import opened Wrappers
  import opened Js
  import opened CartModel
  import opened UserModel
  import opened ResetCode

  // ------------------------------------------------------------ cart read

  /** One line of the cart as returned. */
  datatype CartViewLine = CartViewLine(productId: string, name: string, price: int, quantity: int, totalPrice: int)

  /** The body of a successful `getCartByUserId`. */
  datatype CartView = CartView(userId: string, lines: seq<CartViewLine>, cartTotal: int, currency: string)

  /** A stored line with its total recomputed from price and quantity; the
      stored `totalPrice` is not read. */
  function ViewLine(l: CartLine): (v: CartViewLine)
    ensures v.productId == l.productId && v.name == l.name && v.price == l.price && v.quantity == l.quantity
    ensures v.totalPrice == l.price * l.quantity
  {
    CartViewLine(l.productId, l.name, l.price, l.quantity, l.price * l.quantity)
  }

  function ViewLines(lines: seq<CartLine>): (vs: seq<CartViewLine>)
    ensures |vs| == |lines| && forall i :: 0 <= i < |lines| ==> vs[i] == ViewLine(lines[i])
  {
    seq(|lines|, i requires 0 <= i < |lines| => ViewLine(lines[i]))
  }

  /** `cart.currency || "INR"`. */
  function ViewCurrency(c: string): (r: string)
    ensures c != "" ==> r == c
    ensures c == "" ==> r == DefaultCurrency
  {
    if c != "" then c else DefaultCurrency
  }

  /** `getCartByUserId`: 400 without a user id, 404 when the user has no cart
      or an empty one; otherwise one line per stored line in order, totals
      recomputed, the cart total the sum of price times quantity. The stored
      carts are only read. */
  method GetCartByUserId(store: CartCollection, userId: string) returns (r: Result<CartView>)
    ensures r == Err(BadRequest) <==> userId == ""
    ensures r == Err(NotFound) <==> userId != "" && (userId !in store.carts || |store.carts[userId].products| == 0)
    ensures r.Err? ==> r.error == BadRequest || r.error == NotFound
    ensures r.Ok? ==>
              userId in store.carts &&
              var c := store.carts[userId];
              r.value == CartView(c.userId, ViewLines(c.products), Expected(c.products), ViewCurrency(c.currency))
  {
    if userId == "" {
      return Err(BadRequest);
    }
    var cart := store.FindOne(userId);
    if cart == null || |cart.products| == 0 {
      return Err(NotFound);
    }
    var products := cart.products;
    var cartTotal := 0;
    var enriched: seq<CartViewLine> := [];
    for i := 0 to |products|
      invariant enriched == ViewLines(products[..i])
      invariant cartTotal == Expected(products[..i])
    {
      var price := products[i].price;
      var quantity := products[i].quantity;
      var totalPrice := price * quantity;
      cartTotal := cartTotal + totalPrice;
      assert products[..i + 1][..i] == products[..i];
      enriched := enriched + [CartViewLine(products[i].productId, products[i].name, price, quantity, totalPrice)];
    }
    assert products[..|products|] == products;
    return Ok(CartView(cart.userId, enriched, cartTotal, ViewCurrency(cart.currency)));
  }

  /** For a cart whose lines are consistent and whose stored total is their
      sum (what `addToCart` saves when prices agree), the read-back total is
      the stored one. */
  lemma ViewTotalIsStoredTotal(c: Cart)
    requires AllConsistent(c.products) && c.cartTotal == Sum(c.products)
    ensures Expected(c.products) == c.cartTotal
  {
    SumOfConsistent(c.products);
  }

  /** The read-back total depends on the lines' prices and quantities only:
      carts whose lines agree on those read back the same total, whatever
      totals they store, so a stale stored total never reaches the answer. */
  lemma {:induction false} ViewIgnoresStaleTotals(a: seq<CartLine>, b: seq<CartLine>)
    requires |a| == |b|
    requires forall i :: 0 <= i < |a| ==> a[i].price == b[i].price && a[i].quantity == b[i].quantity
    ensures Expected(a) == Expected(b)
    decreases |a|
  {
    if a != [] {
      ViewIgnoresStaleTotals(a[..|a| - 1], b[..|b| - 1]);
    }
  }

  // ------------------------------------------------------------ reset flow

  /** Ten minutes, in milliseconds. */
  const ResetWindow: int := 10 * 60 * 1000

  /** `sendEmail` (utils/sendEmail.js): a falsy recipient, subject or html
      throws before anything is sent; otherwise the mail goes out exactly
      when the transport delivers it, which `delivered` stands for. */
  predicate MailSent(toEmail: string, subject: string, html: string, delivered: bool) {
    toEmail != "" && subject != "" && html != "" && delivered
  }

  const OtpSubject: string := "Your OTP Code"

  /** The html of the reset mail up to the code, and after it. */
  const OtpMailHead: string := "<p>Hello User,</p>\n      <p>Your OTP is: <b>"
  const OtpMailTail: string :=
    "</b></p>\n       <p>This OTP is valid for 15 minutes.</p>\n       <p>If you did not request this, please ignore.</p>"

  /** `head`, then `body`, then `tail`. */
  function Enclose(head: string, body: string, tail: string): (r: string)
    ensures |r| == |head| + |body| + |tail|
    ensures r[..|head|] == head && r[|head|..|head| + |body|] == body
  {
    var r := head + body + tail;
    assert r[..|head|] == head;
    assert r[|head|..|head| + |body|] == body;
    r
  }

  /** The html body `forgotPassword` sends: a greeting, the code in bold and
      two lines of advice. */
  function OtpMailHtml(otp: string): (html: string)
    ensures |html| > |OtpMailHead| + |otp|
    ensures html[..|OtpMailHead|] == OtpMailHead && html[|OtpMailHead|..|OtpMailHead| + |otp|] == otp
  {
    assert |OtpMailTail| > 0;
    Enclose(OtpMailHead, otp, OtpMailTail)
  }

  /** The reset mail to a stored user has a recipient, a subject and a body,
      so it goes out exactly when the transport delivers it. */
  lemma ResetMailSentWhenDelivered(email: string, otp: string, delivered: bool)
    requires email != ""
    ensures MailSent(email, OtpSubject, OtpMailHtml(otp), delivered) <==> delivered
  {
  }

  /** The user after `forgotPassword` stored a token and expiry and saved. */
  function WithToken(u: User, token: string, expires: int, hash: string -> string): (v: User)
    ensures v.id == u.id && v.name == u.name && v.email == u.email
    ensures v.resetPasswordToken == Some(token) && v.resetPasswordExpires == Some(expires)
    ensures v.password == PreSave(u.password, hash)
  {
    u.(resetPasswordToken := Some(token), resetPasswordExpires := Some(expires), password := PreSave(u.password, hash))
  }

  /** Assigning the token and expiry to a loaded user and saving it. */
  method StoreResetToken(users: UserCollection, doc: UserDocument, token: string, expires: int, hash: string -> string)
    returns (ok: bool)
    requires users.Valid() && doc.index < |users.users| && doc.user == users.users[doc.index]
    modifies users, doc
    ensures users.Valid()
    ensures ok <==> old(doc.user).password != ""
    ensures ok ==> users.users == old(users.users)[doc.index := WithToken(old(doc.user), token, expires, hash)]
    ensures !ok ==> users.users == old(users.users)
  {
    doc.user := doc.user.(resetPasswordToken := Some(token), resetPasswordExpires := Some(expires));
    ok := users.Save(doc, hash);
  }

  /** `forgotPassword`: 400 without an email, 404 when no user has it
      (after the schema's normalisation); otherwise the SHA-256 of a fresh
      6-digit code is stored with an expiry ten minutes ahead, and the answer
      is 500 if the email cannot be sent, with the token already stored. */
  method ForgotPassword(users: UserCollection, email: string, draw: nat, now: int,
                        sha: string -> string, hash: string -> string, mailSent: bool)
    returns (r: Result<()>)
    requires users.Valid() && draw < 900000
    modifies users
    ensures users.Valid()
    ensures r == Err(BadRequest) <==> email == ""
    ensures r == Err(NotFound) <==> email != "" && FindEmail(old(users.users), LowerTrim(email)).None?
    ensures email == "" || FindEmail(old(users.users), LowerTrim(email)).None? ==> users.users == old(users.users)
    ensures r.Ok? ==> mailSent
    ensures r.Err? && r.error == ServerError ==> !mailSent || users.users == old(users.users)
    ensures email != "" && FindEmail(old(users.users), LowerTrim(email)).Some? ==>
              var k := FindEmail(old(users.users), LowerTrim(email)).value;
              var u := old(users.users)[k];
              (u.password == "" ==> r == Err(ServerError) && users.users == old(users.users))
              && (u.password != "" ==>
                    users.users == old(users.users)[k := WithToken(u, sha(Otp(draw)), now + ResetWindow, hash)]
                    && (r.Ok? <==> mailSent) && (r.Err? ==> r.error == ServerError))
  {
    if email == "" {
      return Err(BadRequest);
    }
    var doc := users.FindOneByEmail(email);
    if doc == null {
      return Err(NotFound);
    }
    var ok := StoreResetToken(users, doc, sha(Otp(draw)), now + ResetWindow, hash);
    if !ok {
      return Err(ServerError);
    }
    if !mailSent {
      return Err(ServerError);
    }
    return Ok(());
  }

  /** The user after a successful reset: the new password through the hook,
      both reset fields cleared. */
  function AfterReset(u: User, newPassword: string, hash: string -> string): (v: User)
    ensures v.id == u.id && v.name == u.name && v.email == u.email
    ensures v.password == PreSave(newPassword, hash)
    ensures v.resetPasswordToken.None? && v.resetPasswordExpires.None?
  {
    u.(password := PreSave(newPassword, hash), resetPasswordToken := None, resetPasswordExpires := None)
  }

  /** The 400s of `resetPassword` that come before any lookup. */
  predicate ResetFieldsBad(otp: string, newPassword: string, confirmPassword: string) {
    otp == "" || newPassword == "" || confirmPassword == "" || newPassword != confirmPassword
  }

  /** `resetPassword`: missing fields or differing passwords give 400 before
      any lookup; then the first user whose token is the code's SHA-256 and
      whose expiry is strictly after now is reset, and if there is none the
      answer is 400. */
  method ResetPassword(users: UserCollection, otp: string, newPassword: string, confirmPassword: string,
                       now: int, sha: string -> string, hash: string -> string)
    returns (r: Result<()>)
    requires users.Valid()
    modifies users
    ensures users.Valid()
    ensures r.Err? <==> ResetFieldsBad(otp, newPassword, confirmPassword) || FindToken(old(users.users), sha(otp), now).None?
    ensures r.Err? ==> r.error == BadRequest && users.users == old(users.users)
    ensures r.Ok? ==>
              var k := FindToken(old(users.users), sha(otp), now).value;
              users.users == old(users.users)[k := AfterReset(old(users.users)[k], newPassword, hash)]
  {
    if otp == "" || newPassword == "" || confirmPassword == "" {
      return Err(BadRequest);
    }
    if newPassword != confirmPassword {
      return Err(BadRequest);
    }
    var doc := users.FindOneByToken(sha(otp), now);
    if doc == null {
      return Err(BadRequest);
    }
    doc.user := doc.user.(password := newPassword, resetPasswordToken := None, resetPasswordExpires := None);
    var ok := users.Save(doc, hash);
    assert ok;
    return Ok(());
  }

  /** A stored token is accepted at every instant strictly before its expiry
      and by no user at or after it. */
  lemma TokenWindow(u: User, token: string, expires: int, t: int, hash: string -> string)
    ensures var v := WithToken(u, token, expires, hash);
            TokenLive(v, token, t) <==> t < expires
  {
  }

  /** The code `forgotPassword` mails opens `resetPassword` for the
      whole window: some user (the one it was stored for, or an earlier one
      holding the same token) is found. */
  lemma ForgotThenReset(users: seq<User>, k: nat, u: User, draw: nat, now: int, t: int,
                        sha: string -> string, hash: string -> string)
    requires k < |users| && draw < 900000 && now <= t < now + ResetWindow
    ensures var after := users[k := WithToken(u, sha(Otp(draw)), now + ResetWindow, hash)];
            FindToken(after, sha(Otp(draw)), t).Some?
  {
    var after := users[k := WithToken(u, sha(Otp(draw)), now + ResetWindow, hash)];
    assert TokenLive(after[k], sha(Otp(draw)), t);
  }

  /** A reset user's code cannot be used again. */
  lemma ResetIsSingleUse(u: User, newPassword: string, token: string, t: int, hash: string -> string)
    ensures !TokenLive(AfterReset(u, newPassword, hash), token, t)
  {
  }

  // ------------------------------------------------------------ registration

  /** `registerUser` (nodeProject copy): 400 when the normalised email is
      taken; the password is hashed in the controller and then passes through
      the schema's hook; a missing password (the hash call throws) or a failed
      validation gives 500. */
  method RegisterUser(users: UserCollection, name: string, email: string, password: Option<string>,
                      newId: string, hash: string -> string)
    returns (r: Result<string>)
    requires users.Valid()
    modifies users
    ensures users.Valid()
    ensures r == Err(BadRequest) <==> FindEmail(old(users.users), LowerTrim(email)).Some?
    ensures r == Err(ServerError) <==>
              FindEmail(old(users.users), LowerTrim(email)).None?
              && (password.None? || LowerTrim(email) == "" || hash(password.value) == "")
    ensures r.Err? ==> users.users == old(users.users)
    ensures r.Ok? ==> r.value == newId && password.Some?
                      && users.users == old(users.users) + [User(newId, Trim(name), LowerTrim(email),
                                                                 PreSave(hash(password.value), hash), None, None)]
  {
    var existing := users.FindOneByEmail(email);
    if existing != null {
      return Err(BadRequest);
    }
    if password.None? {
      return Err(ServerError);
    }
    var hashed := hash(password.value);
    NotFoundNotIn(users.users, LowerTrim(email));
    var ok := users.Create(User(newId, name, email, hashed, None, None), hash);
    if !ok {
      return Err(ServerError);
    }
    return Ok(newId);
  }

  /** With a real bcrypt, a registered user's stored password is exactly the
      hash of the submitted one: the hook does not hash it a second time. */
  lemma RegisteredPasswordHashedOnce(password: string, hash: string -> string)
    requires HashShaped(hash)
    ensures PreSave(hash(password), hash) == hash(password)
  {
  }
}
