/**
 * The configuration side of src/integrations/supabase/client.ts: masking of
 * configuration values for the start-up message, the choice between the
 * real client and a mock, and what the mock's `auth.getSession` answers.
 */
module SupabaseClient {
  import opened Wrappers
  import opened Text
  import opened Identity

  /** `mask(v)`: "(empty)" when unset, "***" up to 8 characters, else the first and last four around "...". */
  function Mask(v: Option<string>): (r: string)
    ensures !Truthy(v) ==> r == "(empty)"
    ensures Truthy(v) && |v.value| <= 8 ==> r == "***"
    ensures Truthy(v) && |v.value| > 8 ==>
      |r| == 11 && r[..4] == v.value[..4] && r[4..7] == "..." && r[7..] == v.value[|v.value| - 4..]
  {
    if !Truthy(v) then "(empty)"
    else if |v.value| <= 8 then "***"
    else v.value[..4] + "..." + v.value[|v.value| - 4..]
  }

  /** A masked long value reveals nothing of its middle: values with the same ends mask alike. */
  lemma MaskHidesMiddle(v: string, w: string)
    requires |v| > 8 && |w| > 8
    requires v[..4] == w[..4] && v[|v| - 4..] == w[|w| - 4..]
    ensures Mask(Some(v)) == Mask(Some(w))
  {
    var a, b := Mask(Some(v)), Mask(Some(w));
    assert a == a[..4] + a[4..7] + a[7..];
    assert b == b[..4] + b[4..7] + b[7..];
  }

  /** Which object the module exports as `supabase`. */
  datatype ClientKind = Live | NotConfiguredMock | CreationFailedMock

  /**
   * The module's if/else: a mock when either variable is missing, otherwise
   * `createClient`, falling back to a second mock when that throws.
   */
  function ChooseClient(url: Option<string>, anon: Option<string>, createSucceeds: bool): (k: ClientKind)
    ensures k == NotConfiguredMock <==> !Truthy(url) || !Truthy(anon)
    ensures k == Live <==> Truthy(url) && Truthy(anon) && createSucceeds
  {
    if !Truthy(url) || !Truthy(anon) then NotConfiguredMock
    else if createSucceeds then Live
    else CreationFailedMock
  }

  /** What `auth.getSession()` resolves to: `data.session?.user` and `error?.message`. */
  datatype SessionResult = SessionResult(user: Option<User>, error: Option<string>)

  /** The mock clients' `getSession`: no session and an explanatory error. */
  function MockSession(k: ClientKind): (r: Option<SessionResult>)
    ensures r.None? <==> k == Live
    ensures r.Some? ==> r.value.user.None? && r.value.error.Some?
    ensures k == NotConfiguredMock ==> r == Some(SessionResult(None, Some("Supabase not configured")))
    ensures k == CreationFailedMock ==> r == Some(SessionResult(None, Some("Supabase client creation failed")))
  {
    match k
    case Live => None
    case NotConfiguredMock => Some(SessionResult(None, Some("Supabase not configured")))
    case CreationFailedMock => Some(SessionResult(None, Some("Supabase client creation failed")))
  }
}
