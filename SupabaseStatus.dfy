/**
 * src/utils/supabase-status.ts: a summary of the two Supabase settings
 * (`VITE_SUPABASE_URL`, `VITE_SUPABASE_ANON_KEY`) for diagnostics, and the
 * warning lines `logSupabaseStatus` prints when they are incomplete.
 */
module SupabaseStatus {
  import opened Wrappers
  import opened Text
  import opened SupabaseClient

  /** The record `getSupabaseStatus` returns. */
  datatype Status = Status(isConfigured: bool, hasUrl: bool, hasKey: bool, urlPrefix: string, keyPrefix: string)

  const NotSet: string := "Not set"
  const WarnHeader: string := "[Supabase Status] Missing environment variables:"
  const WarnUrl: string := "  - VITE_SUPABASE_URL is not set"
  const WarnKey: string := "  - VITE_SUPABASE_ANON_KEY is not set"
  const WarnAdvice: string := "[Supabase Status] Please set these in your .env file or deployment environment"

  /** `v ? v.substring(0, n) + '...' : 'Not set'`: the dots follow even a value shorter than `n`. */
  function Prefix(v: Option<string>, n: nat): (r: string)
    ensures !Truthy(v) ==> r == NotSet
    ensures Truthy(v) ==>
      var shown := if n < |v.value| then n else |v.value|;
      && |r| == shown + 3 && r[..shown] == v.value[..shown] && r[shown..] == "..."
  {
    if Truthy(v) then Take(v.value, n) + "..." else NotSet
  }

  /** `getSupabaseStatus()` for the two settings. */
  function GetStatus(url: Option<string>, key: Option<string>): (s: Status)
    ensures s.hasUrl <==> Truthy(url)
    ensures s.hasKey <==> Truthy(key)
    ensures s.isConfigured <==> s.hasUrl && s.hasKey
    ensures s.urlPrefix == Prefix(url, 30) && s.keyPrefix == Prefix(key, 8)
  {
    Status(Truthy(url) && Truthy(key), Truthy(url), Truthy(key), Prefix(url, 30), Prefix(key, 8))
  }

  /** The `console.warn` lines of `logSupabaseStatus`, in order. */
  function Warnings(s: Status): (w: seq<string>)
    ensures s.isConfigured <==> w == []
    ensures !s.isConfigured ==> w[0] == WarnHeader && w[|w| - 1] == WarnAdvice
    ensures !s.isConfigured ==> (WarnUrl in w <==> !s.hasUrl) && (WarnKey in w <==> !s.hasKey)
    ensures |w| <= 4
  {
    if s.isConfigured then []
    else [WarnHeader] + (if s.hasUrl then [] else [WarnUrl]) + (if s.hasKey then [] else [WarnKey]) + [WarnAdvice]
  }

  /** Of a consistent status, the warnings name exactly the missing settings. */
  lemma WarningsNameMissing(url: Option<string>, key: Option<string>)
    ensures var w := Warnings(GetStatus(url, key));
      && (WarnUrl in w <==> !Truthy(url))
      && (WarnKey in w <==> !Truthy(key))
      && (w == [] <==> Truthy(url) && Truthy(key))
  {
  }

  /** The status reports "configured" exactly when the client module does not fall back to its unconfigured mock. */
  lemma StatusAgreesWithClient(url: Option<string>, key: Option<string>, createSucceeds: bool)
    ensures GetStatus(url, key).isConfigured <==> ChooseClient(url, key, createSucceeds) != NotConfiguredMock
  {
  }
}
