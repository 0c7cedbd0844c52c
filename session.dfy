/** The signed-in identity as the views read it: the public fields of a
    registered user. The session store itself is not part of this model. */
module Session {
  /** A user's public fields. `role` is the string stored at sign-up. */
  datatype User = User(id: string, email: string, name: string, role: string)
}
