/** Sign-up and log-in (backend/controllers/authController.js) over the user
    table. Request fields that are absent are modelled as the empty string,
    since the controller treats both as falsy. `bcrypt.hash` is represented by
    the hash it produced (a parameter), `bcrypt.compare` by the function
    parameter `matches`, and `jwt.sign` by the claims it would sign. */
module Auth {
  import opened Common

  datatype Role = Student | Admin

  /** A user record; `password` holds the bcrypt hash. */
  datatype User = User(id: UserId, name: string, email: string, password: string, role: Role)

  /** What the signed token carries. */
  datatype TokenClaims = TokenClaims(id: UserId, role: Role)

  /** The body of a successful log-in: the token's claims and the public
      fields of the user. */
  datatype LoginReply = LoginReply(claims: TokenClaims, id: UserId, name: string, email: string, role: Role)

  /** `role && role.toUpperCase() === "ADMIN" ? "ADMIN" : "STUDENT"`, with
      ASCII upper-casing: a role is an administrator exactly when it spells
      "admin" in any mix of cases. */
  function NormaliseRole(role: string): (r: Role)
    ensures r == Admin <==>
      |role| == 5 && forall i :: 0 <= i < 5 ==> role[i] == "ADMIN"[i] || role[i] == "admin"[i]
  {
    if role != "" && ToUpper(role) == "ADMIN" then Admin else Student
  }

  const AllFieldsRequired := "All fields are required"
  const UserExists := "User already exists"
  const CredentialsRequired := "Email and password are required"
  const InvalidCredentials := "Invalid credentials"

  class UserStore {
    var users: map<UserId, User>

    /** Every record is stored under its own id, and no two users share an
        email address. */
    ghost predicate Valid()
      reads this
    {
      && (forall id | id in users :: users[id].id == id)
      && (forall i, j | i in users && j in users && users[i].email == users[j].email :: i == j)
    }

    predicate EmailTaken(email: string)
      reads this
    {
      exists id | id in users :: users[id].email == email
    }

    constructor ()
      ensures Valid() && users == map[]
    {
      users := map[];
    }

    /** `prisma.user.findUnique({ where: { email } })`. */
    method FindByEmail(email: string) returns (r: Option<User>)
      requires Valid()
      ensures r.None? <==> !EmailTaken(email)
      ensures r.Some? ==> r.value.id in users && users[r.value.id] == r.value && r.value.email == email
    {
      if exists id | id in users :: users[id].email == email {
        var id :| id in users && users[id].email == email;
        r := Some(users[id]);
      } else {
        r := None;
      }
    }

    /** The sign-up handler. `hashed` is what `bcrypt.hash(password, 10)`
        returned and `freshId` the id the database assigns. */
    method Signup(name: string, email: string, password: string, role: string, hashed: string, freshId: UserId)
      returns (r: Result<User>)
      requires Valid() && freshId !in users
      modifies this
      ensures Valid()
      ensures name == "" || email == "" || password == "" ==>
        r == Err(BadRequest, AllFieldsRequired) && users == old(users)
      ensures name != "" && email != "" && password != "" && old(EmailTaken(email)) ==>
        r == Err(BadRequest, UserExists) && users == old(users)
      ensures name != "" && email != "" && password != "" && !old(EmailTaken(email)) ==>
        r == Ok(User(freshId, name, email, hashed, NormaliseRole(role))) && users == old(users)[freshId := r.value]
    {
      if name == "" || email == "" || password == "" {
        return Err(BadRequest, AllFieldsRequired);
      }
      var existing := FindByEmail(email);
      if existing.Some? {
        return Err(BadRequest, UserExists);
      }
      var user := User(freshId, name, email, hashed, NormaliseRole(role));
      users := users[freshId := user];
      r := Ok(user);
    }

    /** The log-in handler. An unknown email and a wrong password give the same
        answer, so a caller cannot tell which one failed. */
    method Login(email: string, password: string, matches: (string, string) -> bool) returns (r: Result<LoginReply>)
      requires Valid()
      ensures email == "" || password == "" ==> r == Err(BadRequest, CredentialsRequired)
      ensures r.Err? && email != "" && password != "" ==> r == Err(BadRequest, InvalidCredentials)
      ensures r.Ok? <==> (email != "" && password != "" &&
        exists id | id in users :: users[id].email == email && matches(password, users[id].password))
      ensures r.Ok? ==> (r.value.id in users && users[r.value.id].email == email &&
        r.value.claims == TokenClaims(r.value.id, users[r.value.id].role) &&
        r.value == LoginReply(r.value.claims, r.value.id, users[r.value.id].name, email, users[r.value.id].role))
    {
      if email == "" || password == "" {
        return Err(BadRequest, CredentialsRequired);
      }
      var found := FindByEmail(email);
      if found.None? {
        return Err(BadRequest, InvalidCredentials);
      }
      var user := found.value;
      if !matches(password, user.password) {
        return Err(BadRequest, InvalidCredentials);
      }
      r := Ok(LoginReply(TokenClaims(user.id, user.role), user.id, user.name, user.email, user.role));
    }
  }
}
