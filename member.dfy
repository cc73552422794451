/** Registered members and the login record built from them. */
module Members {

  datatype Role = USER | ADMIN

  /** A row of the member table. The password is stored already encoded. */
  datatype Member = Member(
    id: int,
    name: string,
    email: string,
    password: string,
    address: string,
    role: Role)

  /** What the login service hands to the security layer. */
  datatype UserDetails = UserDetails(username: string, password: string, role: Role)
}
