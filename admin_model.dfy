/** The admin accounts as far as account creation needs them. The Admin
    schema itself (password hashing, further validation) is not part of
    this model; the unique index on `email` is. */
module AdminModel {
  import opened Common

  datatype Admin = Admin(username: string, email: string, password: string, role: string)

  const DefaultRole: string := "admin"

  function EmailOf(a: Admin): string
  {
    a.email
  }
}
