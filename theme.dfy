/**
 * `theme_context` (expenses/context_processors.py): the two template
 * variables every page gets, taken from the signed-in user's profile when
 * there is one and defaulted otherwise.
 */
module Theme {
  import opened Wrappers
  import opened Models

  /** The context `{'dark_mode': ..., 'user_currency': ...}`: exactly these two entries. */
  datatype ThemeVars = ThemeVars(darkMode: bool, userCurrency: string)

  const DefaultTheme: ThemeVars := ThemeVars(false, DefaultCurrency)

  /**
   * `profile` is the signed-in user's profile, None when the request is
   * anonymous or the user has none (`UserProfile.DoesNotExist` is swallowed).
   */
  function ThemeContext(authenticated: bool, profile: Option<UserProfile>): (t: ThemeVars)
    ensures !authenticated ==> t == ThemeVars(false, "$")
    ensures authenticated && profile.Some? ==> t.darkMode == profile.value.darkMode && t.userCurrency == profile.value.currency
    ensures authenticated && profile.None? ==> t == ThemeVars(false, "$")
  {
    if authenticated && profile.Some? then ThemeVars(profile.value.darkMode, profile.value.currency)
    else DefaultTheme
  }

  /** A freshly created profile looks exactly like no profile at all. */
  lemma NewProfileLooksAnonymous(user: UserId, now: Timestamp, authenticated: bool)
    ensures ThemeContext(authenticated, Some(NewProfile(user, now))) == ThemeContext(false, None)
  {
  }
}
