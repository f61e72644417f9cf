/** The user record and the collection that stores it. */
module Users {
  import opened Wrappers

  /** The database identifier of a user (`_id`), also the `id` claim of a session token. */
  type UserId = string

  /** One stored user. `password` holds the password hash, never the plain text. */
  datatype User = User(
    id: UserId,
    name: string,
    email: string,
    password: string,
    isAccountVerified: bool,
    verifyOtp: string,
    verifyOtpExpireAt: int,
    resetOtp: string,
    resetOtpExpireAt: int)

  /** The values the user schema gives the fields that registration does not set.
      The schema itself is not part of this model, so they stay a parameter. */
  datatype SchemaDefaults = SchemaDefaults(
    isAccountVerified: bool,
    verifyOtp: string,
    verifyOtpExpireAt: int,
    resetOtp: string,
    resetOtpExpireAt: int)

  /** The document `new userModel({ name, email, password })` creates. */
  function NewUser(id: UserId, name: string, email: string, password: string, d: SchemaDefaults): (u: User)
    ensures u.id == id && u.name == name && u.email == email && u.password == password
    ensures u.isAccountVerified == d.isAccountVerified
    ensures u.verifyOtp == d.verifyOtp && u.verifyOtpExpireAt == d.verifyOtpExpireAt
    ensures u.resetOtp == d.resetOtp && u.resetOtpExpireAt == d.resetOtpExpireAt
  {
    User(id, name, email, password, d.isAccountVerified, d.verifyOtp, d.verifyOtpExpireAt, d.resetOtp, d.resetOtpExpireAt)
  }

  /** The users collection, indexed by its unique email. */
  type Store = map<string, User>

  /** What the database and registration guarantee: each record sits under
      its own non-empty email, and ids are non-empty and unique. */
  predicate WellFormed(users: Store) {
    && (forall e | e in users :: users[e].email == e && e != "" && users[e].id != "")
    && (forall e1, e2 | e1 in users && e2 in users && users[e1].id == users[e2].id :: e1 == e2)
  }

  /** No stored user has this id. */
  predicate IdFree(users: Store, id: UserId) {
    forall e | e in users :: users[e].id != id
  }

  /** `userModel.findById(id)`: the email of the user with this id, if any. */
  function EmailWithId(users: Store, id: UserId): (r: Option<string>)
    requires WellFormed(users)
    ensures r.Some? ==> r.value in users && users[r.value].id == id
    ensures r.None? ==> IdFree(users, id)
    ensures forall e | e in users && users[e].id == id :: r == Some(e)
  {
    if exists e | e in users :: users[e].id == id then
      var e :| e in users && users[e].id == id; Some(e)
    else
      None
  }

  /** A loaded user document: a mutable copy of one record, whose fields a
      handler assigns before saving it back. */
  class UserDocument {
    const id: UserId
    const email: string
    var name: string
    var password: string
    var isAccountVerified: bool
    var verifyOtp: string
    var verifyOtpExpireAt: int
    var resetOtp: string
    var resetOtpExpireAt: int

    constructor (u: User)
      ensures Value() == u
    {
      id, email, name, password := u.id, u.email, u.name, u.password;
      isAccountVerified := u.isAccountVerified;
      verifyOtp, verifyOtpExpireAt := u.verifyOtp, u.verifyOtpExpireAt;
      resetOtp, resetOtpExpireAt := u.resetOtp, u.resetOtpExpireAt;
    }

    /** The record this document would be saved as. */
    function Value(): (u: User)
      reads this
      ensures u.id == id && u.email == email && u.name == name
      ensures u.password == password && u.isAccountVerified == isAccountVerified
      ensures u.verifyOtp == verifyOtp && u.verifyOtpExpireAt == verifyOtpExpireAt
      ensures u.resetOtp == resetOtp && u.resetOtpExpireAt == resetOtpExpireAt
    {
      User(id, name, email, password, isAccountVerified, verifyOtp, verifyOtpExpireAt, resetOtp, resetOtpExpireAt)
    }
  }
}
