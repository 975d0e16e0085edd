/** The browser cookie jar the session lives in, as the `js-cookie` calls of
    the front-end see it: named string values, each with an optional lifetime
    in days (absent: a session cookie). */
module Cookies {
  import opened Wrappers

  const AccessToken := "access_token"
  const RefreshToken := "refresh_token"

  datatype Cookie = Cookie(value: string, expires: Option<real>)

  type Jar = map<string, Cookie>

  /** `Cookies.get(name)`: the value, or undefined. */
  function Get(jar: Jar, name: string): (v: Option<string>)
    ensures v.Some? <==> name in jar
    ensures v.Some? ==> v.value == jar[name].value
  {
    if name in jar then Some(jar[name].value) else None
  }

  /** JavaScript truthiness of an optional string: present and non-empty. */
  predicate Truthy(v: Option<string>) {
    v.Some? && v.value != ""
  }

  /** `Cookies.set(name, value, {expires})`. */
  function Set(jar: Jar, name: string, value: string, expires: Option<real>): (jar': Jar)
    ensures jar'.Keys == jar.Keys + {name}
    ensures jar'[name] == Cookie(value, expires)
    ensures forall n :: n in jar && n != name ==> jar'[n] == jar[n]
  {
    jar[name := Cookie(value, expires)]
  }

  /** `Cookies.remove(name)`. */
  function Remove(jar: Jar, name: string): (jar': Jar)
    ensures jar'.Keys == jar.Keys - {name}
    ensures forall n :: n in jar' ==> jar'[n] == jar[n]
  {
    jar - {name}
  }

  /** The session write every sign-in path performs: the access token with
      the given lifetime, then the refresh token as a session cookie. */
  function StoreTokens(jar: Jar, access: string, refresh: string, lifetime: real): (jar': Jar)
    ensures Get(jar', AccessToken) == Some(access)
    ensures Get(jar', RefreshToken) == Some(refresh)
    ensures jar'[AccessToken].expires == Some(lifetime)
    ensures jar'[RefreshToken].expires == None
    ensures jar'.Keys == jar.Keys + {AccessToken, RefreshToken}
    ensures forall n :: n in jar && n != AccessToken && n != RefreshToken ==> jar'[n] == jar[n]
  {
    Set(Set(jar, AccessToken, access, Some(lifetime)), RefreshToken, refresh, None)
  }

  /** The session clear: both token cookies removed, nothing else touched. */
  function ClearTokens(jar: Jar): (jar': Jar)
    ensures Get(jar', AccessToken).None? && Get(jar', RefreshToken).None?
    ensures jar'.Keys == jar.Keys - {AccessToken, RefreshToken}
    ensures forall n :: n in jar' ==> jar'[n] == jar[n]
  {
    Remove(Remove(jar, AccessToken), RefreshToken)
  }

  /** Clearing twice is clearing once. */
  lemma ClearTokensIdempotent(jar: Jar)
    ensures ClearTokens(ClearTokens(jar)) == ClearTokens(jar)
  {
  }

  /** Reading the tokens back after a store gives what was stored, whatever
      the jar held before, including a cleared jar. */
  lemma StoreThenRead(jar: Jar, access: string, refresh: string, lifetime: real)
    ensures Get(StoreTokens(ClearTokens(jar), access, refresh, lifetime), AccessToken) == Some(access)
    ensures StoreTokens(ClearTokens(jar), access, refresh, lifetime) == StoreTokens(jar, access, refresh, lifetime)
  {
  }
}
