/**
 * Account registration and login. Registration validates the body, then, in
 * one transaction, rejects a registered email, inserts the user and, for a
 * dealer, the dealer profile; any failure rolls the transaction back.
 */
module UserController {
  import opened Wrappers
  import opened Database
  import Js

  /**
   * A bcrypt hash. Hashing is one-way and salted: the model keeps the salt
   * and the secret only so that `Matches` (bcrypt.compare) can be stated.
   */
  datatype PasswordHash = Bcrypt(salt: nat, secret: string)

  predicate Matches(password: string, h: PasswordHash) {
    h.secret == password
  }

  /** A row of `users`. */
  datatype UserRow = UserRow(
    id: int,
    email: string,
    phone_number: string,
    first_name: string,
    last_name: string,
    password_hash: PasswordHash,
    role: string,
    created_at: int)

  /** A row of `dealers`, linked to its user. */
  datatype DealerRow = DealerRow(
    user_id: int,
    company_name: string,
    vat_number: string,
    company_address: string,
    company_city: string)

  /** The JSON body of a registration; each field is absent or a string. */
  datatype RegisterBody = RegisterBody(
    email: Option<string>,
    phone_number: Option<string>,
    first_name: Option<string>,
    last_name: Option<string>,
    password: Option<string>,
    role: Option<string>,
    company_name: Option<string>,
    vat_number: Option<string>,
    company_address: Option<string>,
    company_city: Option<string>)

  /**
   * The registration response: the columns the insert returns (no
   * password_hash, no phone number) and, for a dealer, the dealer row.
   */
  datatype NewUser = NewUser(
    id: int,
    email: string,
    first_name: string,
    last_name: string,
    role: string,
    created_at: int,
    dealer_profile: Option<DealerRow>)

  /** The JSON body of a login. */
  datatype LoginBody = LoginBody(email: Option<string>, password: Option<string>)

  /** The login response: the whole users row and, for a dealer, its dealer row. */
  datatype LoggedIn = LoggedIn(user: UserRow, dealer_profile: Option<DealerRow>)

  predicate CommonFieldsPresent(b: RegisterBody) {
    Js.Truthy(b.email) && Js.Truthy(b.phone_number) && Js.Truthy(b.first_name)
    && Js.Truthy(b.last_name) && Js.Truthy(b.password) && Js.Truthy(b.role)
  }

  predicate KnownRole(role: string) {
    role == "customer" || role == "dealer"
  }

  predicate DealerFieldsPresent(b: RegisterBody) {
    Js.Truthy(b.company_name) && Js.Truthy(b.vat_number) && Js.Truthy(b.company_address) && Js.Truthy(b.company_city)
  }

  /**
   * The checks made before the database is touched, in order: the common
   * fields, the role, then the dealer fields. `None` when all pass.
   */
  function ValidationError(b: RegisterBody): (r: Option<string>)
    ensures r.None? <==> CommonFieldsPresent(b) && KnownRole(b.role.value)
                          && (b.role.value == "dealer" ==> DealerFieldsPresent(b))
    ensures !CommonFieldsPresent(b) ==> r == Some("All common fields are required")
    ensures CommonFieldsPresent(b) && !KnownRole(b.role.value) ==> r == Some("Invalid role specified")
    ensures CommonFieldsPresent(b) && b.role == Some("dealer") && !DealerFieldsPresent(b)
            ==> r == Some("All dealer fields are required")
  {
    if !CommonFieldsPresent(b) then Some("All common fields are required")
    else if !KnownRole(b.role.value) then Some("Invalid role specified")
    else if b.role.value == "dealer" && !DealerFieldsPresent(b) then Some("All dealer fields are required")
    else None
  }

  /** The number of dealer rows that belong to user `uid`. */
  function DealerCount(dealers: seq<DealerRow>, uid: int): (n: nat)
    ensures n <= |dealers|
    ensures n == 0 <==> forall i | 0 <= i < |dealers| :: dealers[i].user_id != uid
  {
    if dealers == [] then 0
    else
      assert forall i | 0 < i < |dealers| :: dealers[i] == dealers[1..][i - 1];
      (if dealers[0].user_id == uid then 1 else 0) + DealerCount(dealers[1..], uid)
  }

  lemma {:induction false} DealerCountAppend(dealers: seq<DealerRow>, d: DealerRow, uid: int)
    ensures DealerCount(dealers + [d], uid) == DealerCount(dealers, uid) + (if d.user_id == uid then 1 else 0)
  {
    if dealers != [] {
      assert (dealers + [d])[1..] == dealers[1..] + [d];
      DealerCountAppend(dealers[1..], d, uid);
    }
  }

  /** `SELECT * FROM dealers WHERE user_id = $1`, first row. */
  function FirstDealerOf(dealers: seq<DealerRow>, uid: int): (r: Option<DealerRow>)
    ensures r.Some? ==> r.value in dealers && r.value.user_id == uid
    ensures r.None? <==> DealerCount(dealers, uid) == 0
  {
    if dealers == [] then None
    else if dealers[0].user_id == uid then Some(dealers[0])
    else FirstDealerOf(dealers[1..], uid)
  }

  predicate EmailTaken(users: map<int, UserRow>, email: string) {
    exists id | id in users :: users[id].email == email
  }

  predicate VatTaken(dealers: seq<DealerRow>, vat: string) {
    exists i | 0 <= i < |dealers| :: dealers[i].vat_number == vat
  }

  /**
   * The `detail` text of PostgreSQL's unique violation (SQLSTATE 23505) on
   * `dealers.vat_number`: it names the key column and quotes the value.
   */
  function VatViolationDetail(vat: string): (detail: string)
    ensures Js.OccursAt(detail, "vat_number", 5)
    ensures Js.OccursAt(detail, vat, 18)
  {
    "Key (vat_number)=(" + vat + ") already exists."
  }

  /**
   * The catch block's answer to a unique violation: the detail text is
   * searched for "email" first, then for "vat_number"; any other violation
   * is rethrown as it is.
   */
  function UniqueViolationError(detail: string): (e: ServerError)
    ensures e.AppError? <==> Js.Includes(detail, "email") || Js.Includes(detail, "vat_number")
    ensures e.AppError? ==> e.status == 400
  {
    if Js.Includes(detail, "email") then AppError("Email already exists", 400)
    else if Js.Includes(detail, "vat_number") then AppError("VAT Number already registered", 400)
    else QueryError
  }

  /**
   * The error a duplicate VAT number ends in: the catch block's answer to
   * the violation's detail text. That text is searched for "email" first,
   * so a number that itself contains "email" is reported as a duplicate
   * email; the fixed parts of the text contain neither "email" nor a piece
   * of it that the number could complete.
   */
  function VatConflictError(vat: string): (e: ServerError)
    ensures e == AppError(if Js.Includes(vat, "email") then "Email already exists"
                          else "VAT Number already registered", 400)
  {
    var detail := VatViolationDetail(vat);
    assert Js.OccursAt(detail, "vat_number", 5);
    EmailInVatDetail(vat);
    UniqueViolationError(detail)
  }

  lemma EmailInVatDetail(vat: string)
    ensures Js.Includes(VatViolationDetail(vat), "email") <==> Js.Includes(vat, "email")
  {
    var detail := VatViolationDetail(vat);
    if Js.Includes(vat, "email") {
      var j :| Js.OccursAt(vat, "email", j);
      assert detail[18 + j..18 + j + 5] == vat[j..j + 5];
      assert Js.OccursAt(detail, "email", 18 + j);
    }
    if Js.Includes(detail, "email") {
      var i :| Js.OccursAt(detail, "email", i);
      NoEmailInPrefix(vat, i);
      NoEmailAcrossSuffix(vat, i);
      assert vat[i - 18..i - 18 + 5] == detail[i..i + 5];
      assert Js.OccursAt(vat, "email", i - 18);
    }
  }

  /** No "email" starts inside the fixed text before the value. */
  lemma NoEmailInPrefix(vat: string, i: int)
    requires Js.OccursAt(VatViolationDetail(vat), "email", i)
    ensures i >= 18
  {
    var detail := VatViolationDetail(vat);
    assert detail[i] == 'e' && detail[i + 1] == 'm';
  }

  /** No "email" runs into the fixed text after the value, which starts with ')'. */
  lemma NoEmailAcrossSuffix(vat: string, i: int)
    requires Js.OccursAt(VatViolationDetail(vat), "email", i)
    ensures i + 5 <= 18 + |vat|
  {
    var detail := VatViolationDetail(vat);
    var suffix := ") already exists.";
    var n := 18 + |vat|;
    assert detail[n..] == suffix;
    assert detail[i] == 'e' && detail[i + 1] == 'm' && detail[i + 4] == 'l';
  }

  /** Every user row is stored under its own id, below the sequence, with a known role. */
  ghost predicate IdsValid(users: map<int, UserRow>, nextUserId: int) {
    forall id | id in users :: users[id].id == id && id < nextUserId && KnownRole(users[id].role)
  }

  ghost predicate EmailsUnique(users: map<int, UserRow>) {
    forall a, b | a in users && b in users && users[a].email == users[b].email :: a == b
  }

  ghost predicate VatsUnique(dealers: seq<DealerRow>) {
    forall i, j | 0 <= i < j < |dealers| :: dealers[i].vat_number != dealers[j].vat_number
  }

  /** Every dealer row belongs to a user; a dealer has exactly one and a customer none. */
  ghost predicate DealerRowsMatchRoles(users: map<int, UserRow>, dealers: seq<DealerRow>) {
    && (forall i | 0 <= i < |dealers| :: dealers[i].user_id in users)
    && (forall id | id in users :: DealerCount(dealers, id) == if users[id].role == "dealer" then 1 else 0)
  }

  /**
   * The tables' invariant: ids, unique emails and VAT numbers, and no user
   * row persisting without its dealer row.
   */
  ghost predicate TablesValid(users: map<int, UserRow>, dealers: seq<DealerRow>, nextUserId: int) {
    IdsValid(users, nextUserId) && EmailsUnique(users) && VatsUnique(dealers) && DealerRowsMatchRoles(users, dealers)
  }

  /** Appending the new user's dealer rows leaves every other user's count alone. */
  lemma DealerCountAfterInsert(dealers: seq<DealerRow>, extra: seq<DealerRow>, next: int, uid: int)
    requires forall i | 0 <= i < |dealers| :: dealers[i].user_id != next
    requires extra == [] || (|extra| == 1 && extra[0].user_id == next)
    ensures DealerCount(dealers + extra, uid) ==
              if uid == next then |extra| else DealerCount(dealers, uid)
  {
    if extra == [] {
      assert dealers + extra == dealers;
    } else {
      assert dealers + extra == dealers + [extra[0]];
      DealerCountAppend(dealers, extra[0], uid);
    }
  }

  lemma InsertKeepsIdsValid(users: map<int, UserRow>, next: int, row: UserRow)
    requires IdsValid(users, next) && row.id == next && KnownRole(row.role)
    ensures IdsValid(users[next := row], next + 1)
  {
    var users' := users[next := row];
    forall id | id in users' ensures users'[id].id == id && id < next + 1 && KnownRole(users'[id].role) {
      if id != next { assert users'[id] == users[id]; }
    }
  }

  lemma InsertKeepsEmailsUnique(users: map<int, UserRow>, next: int, row: UserRow)
    requires EmailsUnique(users) && !EmailTaken(users, row.email)
    ensures EmailsUnique(users[next := row])
  {
    var users' := users[next := row];
    forall a, b | a in users' && b in users' && users'[a].email == users'[b].email ensures a == b {
      if a != next && b != next {
        assert users'[a] == users[a] && users'[b] == users[b];
      }
    }
  }

  lemma InsertKeepsVatsUnique(dealers: seq<DealerRow>, extra: seq<DealerRow>)
    requires VatsUnique(dealers)
    requires extra == [] || (|extra| == 1 && !VatTaken(dealers, extra[0].vat_number))
    ensures VatsUnique(dealers + extra)
  {
    var dealers' := dealers + extra;
    forall i, j | 0 <= i < j < |dealers'| ensures dealers'[i].vat_number != dealers'[j].vat_number {
      if j >= |dealers| { assert dealers'[j] == extra[0]; assert dealers'[i] == dealers[i]; }
    }
  }

  lemma InsertKeepsDealerRowsMatchRoles(users: map<int, UserRow>, dealers: seq<DealerRow>, next: int,
                                        row: UserRow, extra: seq<DealerRow>)
    requires DealerRowsMatchRoles(users, dealers) && next !in users
    requires extra == [] || (|extra| == 1 && extra[0].user_id == next)
    requires |extra| == 1 <==> row.role == "dealer"
    ensures DealerRowsMatchRoles(users[next := row], dealers + extra)
  {
    var users', dealers' := users[next := row], dealers + extra;
    assert forall i | 0 <= i < |dealers| :: dealers[i].user_id != next;
    forall uid | uid in users'
      ensures DealerCount(dealers', uid) == if users'[uid].role == "dealer" then 1 else 0
    {
      DealerCountAfterInsert(dealers, extra, next, uid);
    }
    forall i | 0 <= i < |dealers'| ensures dealers'[i].user_id in users' {
      if i >= |dealers| { assert dealers'[i] == extra[i - |dealers|]; }
    }
  }

  /** Committing a registration keeps the tables valid. */
  lemma InsertKeepsTablesValid(users: map<int, UserRow>, dealers: seq<DealerRow>, next: int,
                               row: UserRow, extra: seq<DealerRow>)
    requires TablesValid(users, dealers, next)
    requires row.id == next && KnownRole(row.role) && !EmailTaken(users, row.email)
    requires extra == [] || (|extra| == 1 && extra[0].user_id == next && !VatTaken(dealers, extra[0].vat_number))
    requires |extra| == 1 <==> row.role == "dealer"
    ensures TablesValid(users[next := row], dealers + extra, next + 1)
  {
    InsertKeepsIdsValid(users, next, row);
    InsertKeepsEmailsUnique(users, next, row);
    InsertKeepsVatsUnique(dealers, extra);
    InsertKeepsDealerRowsMatchRoles(users, dealers, next, row, extra);
  }

  /** After appending a dealer row for a user that had none, that row is the user's first. */
  lemma {:induction false} FirstDealerOfAppended(dealers: seq<DealerRow>, d: DealerRow)
    requires DealerCount(dealers, d.user_id) == 0
    ensures FirstDealerOf(dealers + [d], d.user_id) == Some(d)
  {
    if dealers != [] {
      assert (dealers + [d])[1..] == dealers[1..] + [d];
      assert DealerCount(dealers[1..], d.user_id) == 0;
      FirstDealerOfAppended(dealers[1..], d);
    }
  }

  /** The `users` and `dealers` tables, and the users id sequence. */
  class AccountStore {
    var users: map<int, UserRow>
    var dealers: seq<DealerRow>
    var nextUserId: int

    /** The table invariant `TablesValid` of the current contents. */
    ghost predicate Valid()
      reads this
    {
      TablesValid(users, dealers, nextUserId)
    }

    constructor ()
      ensures Valid() && users == map[] && dealers == [] && nextUserId == 1
    {
      users := map[];
      dealers := [];
      nextUserId := 1;
    }

    /**
     * `registerUser`. `salt` is bcrypt's random salt and `now` the insert
     * time, both supplied from outside. The user id comes from a sequence,
     * which a rollback does not give back.
     */
    method Register(body: RegisterBody, salt: nat, now: int) returns (r: Result<NewUser, ServerError>)
      requires Valid()
      modifies this
      ensures Valid()
      ensures ValidationError(body).Some? ==>
                r == Err(AppError(ValidationError(body).value, 400))
                && users == old(users) && dealers == old(dealers) && nextUserId == old(nextUserId)
      ensures ValidationError(body).None? && EmailTaken(old(users), body.email.value) ==>
                r == Err(AppError("Email already registered", 400))
                && users == old(users) && dealers == old(dealers) && nextUserId == old(nextUserId)
      ensures ValidationError(body).None? && !EmailTaken(old(users), body.email.value)
              && body.role.value == "dealer" && VatTaken(old(dealers), body.vat_number.value) ==>
                r == Err(AppError(if Js.Includes(body.vat_number.value, "email") then "Email already exists"
                                  else "VAT Number already registered", 400))
                && users == old(users) && dealers == old(dealers) && nextUserId == old(nextUserId) + 1
      ensures ValidationError(body).None? && !EmailTaken(old(users), body.email.value)
              && !(body.role.value == "dealer" && VatTaken(old(dealers), body.vat_number.value)) ==>
                r.Ok?
      ensures r.Ok? ==>
                var id := old(nextUserId);
                var dealer := if body.role.value == "dealer" then
                                Some(DealerRow(id, body.company_name.value, body.vat_number.value,
                                               body.company_address.value, body.company_city.value))
                              else None;
                && ValidationError(body).None? && !EmailTaken(old(users), body.email.value)
                && nextUserId == id + 1
                && users == old(users)[id := UserRow(id, body.email.value, body.phone_number.value,
                                                     body.first_name.value, body.last_name.value,
                                                     Bcrypt(salt, body.password.value), body.role.value, now)]
                && dealers == old(dealers) + (if dealer.Some? then [dealer.value] else [])
                && r.value == NewUser(id, body.email.value, body.first_name.value, body.last_name.value,
                                      body.role.value, now, dealer)
      ensures r.Err? ==> users == old(users) && dealers == old(dealers)
    {
      // Validation, before any database access.
      var invalid := ValidationError(body);
      if invalid.Some? {
        return Err(AppError(invalid.value, 400));
      }
      var email := body.email.value;
      var role := body.role.value;

      // BEGIN
      var usersAtBegin, dealersAtBegin := users, dealers;

      if exists id | id in users :: users[id].email == email {
        users, dealers := usersAtBegin, dealersAtBegin;  // ROLLBACK
        return Err(AppError("Email already registered", 400));
      }

      var hashed := Bcrypt(salt, body.password.value);
      var id := nextUserId;
      nextUserId := nextUserId + 1;
      var row := UserRow(id, email, body.phone_number.value, body.first_name.value, body.last_name.value,
                         hashed, role, now);
      users := users[id := row];
      var newUser := NewUser(id, email, row.first_name, row.last_name, role, now, None);

      if role == "dealer" {
        var vat := body.vat_number.value;
        if exists i | 0 <= i < |dealers| :: dealers[i].vat_number == vat {
          // The unique constraint on vat_number aborts the insert.
          users, dealers := usersAtBegin, dealersAtBegin;  // ROLLBACK
          return Err(VatConflictError(vat));
        }
        var dealer := DealerRow(id, body.company_name.value, vat, body.company_address.value, body.company_city.value);
        dealers := dealers + [dealer];
        newUser := newUser.(dealer_profile := Some(dealer));
      }
      // COMMIT
      InsertKeepsTablesValid(usersAtBegin, dealersAtBegin, id, row, dealers[|dealersAtBegin|..]);
      r := Ok(newUser);
    }

    /** `loginUser`: 400 for a missing field, 401 for an unknown email or a wrong password. */
    method Login(body: LoginBody) returns (r: Result<LoggedIn, ServerError>)
      requires Valid()
      ensures !Js.Truthy(body.email) || !Js.Truthy(body.password) ==>
                r == Err(AppError("Email and password are required", 400))
      ensures Js.Truthy(body.email) && Js.Truthy(body.password) && !EmailTaken(users, body.email.value) ==>
                r == Err(AppError("User not found", 401))
      ensures Js.Truthy(body.email) && Js.Truthy(body.password) ==>
                forall id | id in users && users[id].email == body.email.value ::
                  if Matches(body.password.value, users[id].password_hash) then
                    r == Ok(LoggedIn(users[id], if users[id].role == "dealer" then FirstDealerOf(dealers, id) else None))
                  else r == Err(AppError("Invalid password", 401))
      ensures r.Ok? ==> r.value.user in users.Values && (r.value.user.role == "dealer" <==> r.value.dealer_profile.Some?)
    {
      if !Js.Truthy(body.email) || !Js.Truthy(body.password) {
        return Err(AppError("Email and password are required", 400));
      }
      var email, password := body.email.value, body.password.value;
      // BEGIN
      if !exists id | id in users :: users[id].email == email {
        return Err(AppError("User not found", 401));  // ROLLBACK
      }
      var id :| id in users && users[id].email == email;
      if !Matches(password, users[id].password_hash) {
        return Err(AppError("Invalid password", 401));  // ROLLBACK
      }
      var user := users[id];
      var profile: Option<DealerRow> := None;
      if user.role == "dealer" {
        profile := FirstDealerOf(dealers, id);
      }
      // COMMIT
      r := Ok(LoggedIn(user, profile));
    }
  }

  /** Registering a dealer and then logging in returns the new user row with its dealer row. */
  method RegisterThenLogin(store: AccountStore, body: RegisterBody, salt: nat, now: int)
    returns (registered: Result<NewUser, ServerError>, login: Result<LoggedIn, ServerError>)
    requires store.Valid()
    modifies store
    ensures registered.Ok? ==> login.Ok? && login.value.user.id == registered.value.id
                                && login.value.dealer_profile == registered.value.dealer_profile
  {
    ghost var dealersBefore := store.dealers;
    registered := store.Register(body, salt, now);
    if registered.Ok? {
      var id := registered.value.id;
      assert id in store.users && store.users[id].email == body.email.value;
      if registered.value.dealer_profile.Some? {
        assert DealerCount(dealersBefore, id) == 0;
        FirstDealerOfAppended(dealersBefore, registered.value.dealer_profile.value);
      }
    }
    login := store.Login(LoginBody(body.email, body.password));
  }
}
