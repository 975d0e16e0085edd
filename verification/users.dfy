/** The signed-in user record the pages read from the user context. */
module Users {
  import opened Wrappers

  /** `_id`, `username`, `email`, the optional skill level and the stored
      picture reference. */
  datatype User = User(id: string, username: string, email: string, skillLevel: Option<string>, profileImg: string)
}
