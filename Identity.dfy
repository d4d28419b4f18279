/**
 * The signed-in user as the comment code reads it (`user.id`, `user.email`,
 * `user.user_metadata.name`, `user.user_metadata.avatar_url`), and the
 * display name both comment writers derive from it.
 */
module Identity {
  import opened Wrappers
  import opened Text

  datatype User = User(
    id: string,
    email: Option<string>,
    metaName: Option<string>,
    metaAvatarUrl: Option<string>)

  /** `user.email?.split('@')[0]`. */
  function EmailLocalPart(email: Option<string>): (r: Option<string>)
    ensures email.None? <==> r.None?
    ensures r.Some? ==> '@' !in r.value && r.value <= email.value
  {
    match email
    case None => None
    case Some(e) => Some(LocalPart(e))
  }

  /** `user.user_metadata?.name || user.email?.split('@')[0] || 'User'`. */
  function DisplayName(u: User): (r: string)
    ensures r != ""
    ensures Truthy(u.metaName) ==> r == u.metaName.value
    ensures !Truthy(u.metaName) && Truthy(EmailLocalPart(u.email)) ==> r == LocalPart(u.email.value)
    ensures !Truthy(u.metaName) && !Truthy(EmailLocalPart(u.email)) ==> r == "User"
  {
    Or(u.metaName, Or(EmailLocalPart(u.email), "User"))
  }

  /** Without a metadata name, an address `local@domain` with a non-empty local part shows as `local`. */
  lemma DisplayNameFromEmail(u: User, local: string, domain: string)
    requires !Truthy(u.metaName)
    requires local != "" && '@' !in local
    requires u.email == Some(local + "@" + domain)
    ensures DisplayName(u) == local
  {
    LocalPartOfAddress(local, domain);
  }
}
