/** The document shapes of the four Mongoose schemas. Timestamps
    (`createdAt`, `updatedAt`) and Mongo's `_id` are not fields here: a
    document's identifier is its position in its table. */
module Models {
  import opened Replies
  import opened Calendar

  /** The schema's `status` enum. */
  datatype Status = Active | Inactive

  /** A stored password. bcrypt is foreign code: a hash is modelled as a
      wrapper around the secret it was computed from, so comparing a
      password with a hash succeeds exactly for that secret. bcrypt itself
      reads only the first 72 bytes of a password, which this model does
      not reproduce. */
  datatype Credential = Hashed(secret: string)

  /** `bcrypt.compare(plain, stored)`: true exactly when `stored` is the
      hash of `plain`. */
  function PasswordMatches(plain: string, stored: Credential): (b: bool)
    ensures b <==> stored == Hashed(plain)
  {
    stored.secret == plain
  }

  /** A user document. `roleId` refers to a role document by identifier. */
  datatype User = User(name: string, email: string, password: Credential, roleId: Option<nat>, status: Status)

  /** A freshly saved user: the schema defaults give no role and the
      `inactive` status. */
  function NewUser(name: string, email: string, password: Credential): (u: User)
    ensures u.roleId.None? && u.status == Inactive
    ensures u.name == name && u.email == email && u.password == password
  {
    User(name, email, password, None, Inactive)
  }

  /** A role document: a name and the permission strings it grants. */
  datatype Role = Role(name: string, permissions: seq<string>)

  /** An income or an expense document. The income schema calls `tag`
      `source`, the expense schema calls it `category`; the two schemas
      are otherwise identical. `date` is null after an update that set it
      to the empty string. `owner` is the `userId` of the creator. */
  datatype Entry = Entry(tag: string, date: Option<CalDate>, amount: real, owner: nat)
}
