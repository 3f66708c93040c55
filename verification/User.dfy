/** A user as the server passes it around; the default has empty fields. */
module User {
  import opened Bytes

  datatype User = User(username: Text, password: Text)

  const NOBODY := User([], [])
}
