/** The signed-in user as the `useAuth` hook hands it to the components. */
module Auth {
  import opened Wrappers

  /** `id` is None when the user object's `id` is not a string. */
  datatype User = User(id: Option<string>)

  /** `typeof user?.id === 'string' ? user.id : null`. */
  function UserId(user: Option<User>): Option<string> {
    if user.Some? then user.value.id else None
  }
}
