/** The e-mail verification token: it expires 24 hours after it is made.
    The clock is a parameter: instants are nanosecond counts on the local
    date-time line, so that `plusMinutes` and `isAfter` are exact. */
module VerificationToken {
  import opened UserEntity

  /** Token lifetime in minutes (24 hours). */
  const ExpirationMinutes: int := 60 * 24
  /** Nanoseconds in one minute. */
  const NanosPerMinute: int := 60 * 1000000000

  datatype Token = Token(token: string, user: User, expiryDate: int)

  /** The constructor: keeps the given token string and user, and sets the
      expiry to the construction instant plus 1440 minutes. */
  function NewToken(token: string, user: User, now: int): (t: Token)
    ensures t.token == token && t.user == user
    ensures t.expiryDate - now == 1440 * NanosPerMinute
  {
    Token(token, user, now + ExpirationMinutes * NanosPerMinute)
  }

  /** `isExpired`: the current instant is strictly after the expiry. */
  predicate IsExpired(t: Token, now: int)
  {
    now > t.expiryDate
  }

  /** A token made at `created` is still valid at every instant up to and
      including its expiry, 24 hours later, and expired one nanosecond
      after. */
  lemma ValidForADay(token: string, user: User, created: int, now: int)
    ensures var t := NewToken(token, user, created);
            (created <= now <= created + 1440 * NanosPerMinute ==> !IsExpired(t, now)) &&
            (now > created + 1440 * NanosPerMinute ==> IsExpired(t, now))
  {
  }

  /** Once expired, a token stays expired at every later instant. */
  lemma ExpiredStaysExpired(t: Token, now: int, later: int)
    requires IsExpired(t, now) && now <= later
    ensures IsExpired(t, later)
  {
  }
}
