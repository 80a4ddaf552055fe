/** A registered user: a username, the hash of the password (never the
    password itself), an email, and an id derived from the three. Python's
    `hash` of a `str` is salted per process, so it is a parameter here: every
    user built in one process uses the same `Hasher`. */
module ClipUsers {
  import opened Wrappers
  import opened Decimal
  import opened PyRepr

  /** Python's `hash` on `str` within one process. */
  type Hasher = string -> int

  datatype ClipUser = ClipUser(username: string, password: int, email: string, id: int) {

    /** `to_json()`: the four fields under the keys `id`, `username`,
        `password` and `email`, in that order. */
    function ToJson(): (d: PyDict)
      ensures Keys(d) == ["id", "username", "password", "email"]
      ensures Lookup(d, "id") == Some(PyInt(id))
      ensures Lookup(d, "username") == Some(PyStr(username))
      ensures Lookup(d, "password") == Some(PyInt(password))
      ensures Lookup(d, "email") == Some(PyStr(email))
    {
      var d := [("id", PyInt(id)), ("username", PyStr(username)),
                ("password", PyInt(password)), ("email", PyStr(email))];
      LookupFirst(d, 2);
      LookupFirst(d, 3);
      d
    }

    /** `__str__()`: Python's rendering of `to_json()`; it reads back to exactly
        that dict. */
    function ToString(): (s: string)
      ensures ParseDict(s) == Some(ToJson())
    {
      ParseReprDict(ToJson());
      ReprDict(ToJson())
    }
  }

  /** The string the id hashes: username, `str` of the hashed password, email. */
  function IdSource(username: string, hashedPassword: int, email: string): (s: string)
    ensures |s| == |username| + |DecimalString(hashedPassword)| + |email|
    ensures s[..|username|] == username
    ensures s[|s| - |email|..] == email
  {
    username + DecimalString(hashedPassword) + email
  }

  /** `ClipUser(username, password, email)`. */
  function NewUser(hash: Hasher, username: string, password: string, email: string): (u: ClipUser)
    ensures u.username == username && u.email == email
    ensures u.password == hash(password)
    ensures u.id == hash(username + DecimalString(hash(password)) + email)
  {
    var hashed := hash(password);
    ClipUser(username, hashed, email, hash(IdSource(username, hashed, email)))
  }

  /** The id depends on the username, password and email only. */
  lemma SameFieldsSameId(hash: Hasher, username: string, password: string, email: string,
                         u1: ClipUser, u2: ClipUser)
    requires u1 == NewUser(hash, username, password, email)
    requires u2 == NewUser(hash, username, password, email)
    ensures u1.id == u2.id && u1.ToJson() == u2.ToJson()
  {
  }

  /** Users that render to the same string are the same user. */
  lemma ToStringInjective(u1: ClipUser, u2: ClipUser)
    requires u1.ToString() == u2.ToString()
    ensures u1 == u2
  {
    var d1, d2 := u1.ToJson(), u2.ToJson();
    assert Some(d1) == Some(d2);
    assert d1[0].1 == PyInt(u1.id) && d2[0].1 == PyInt(u2.id);
  }

  /** The id source joins the fields without a separator, so a digit string
      moved from the front of the email to the end of the username leaves the
      id unchanged: `("a", p, D + "b")` and `("a" + D, p, "b")`, where `D` is
      `str(hash(p))`, are distinct users with one id. */
  lemma IdIgnoresFieldBoundaries(hash: Hasher, username: string, password: string, email: string)
    ensures var digits := DecimalString(hash(password));
            var u1 := NewUser(hash, username, password, digits + email);
            var u2 := NewUser(hash, username + digits, password, email);
            u1.username != u2.username && u1.id == u2.id
  {
    var digits := DecimalString(hash(password));
    assert username + digits + (digits + email) == (username + digits) + digits + email;
    assert |username + digits| > |username|;
  }
}
