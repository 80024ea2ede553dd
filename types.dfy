/** The shapes shared by the authentication code: roles and the signed-in user. */
module Types {
  import opened Wrappers

  /** `'admin' | 'manager' | 'user'`; the last is called `Member` here so that it
      does not clash with the `User` record. */
  datatype UserRole = Admin | Manager | Member

  function RoleName(r: UserRole): string
  {
    match r
    case Admin => "admin"
    case Manager => "manager"
    case Member => "user"
  }

  datatype User = User(
    id: string,
    email: string,
    name: string,
    role: UserRole,
    avatar: Option<string>,
    createdAt: string)
}
