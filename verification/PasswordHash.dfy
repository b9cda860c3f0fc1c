/**
 The stored password format of app/core/security.py. The key derivation is a parameter: any
 function that returns as many bytes as it is asked for. The random salt is a parameter too.
 */
module PasswordHash {
  import opened Base64
  import opened Wrappers

  type Kdf = (string, seq<Byte>, nat, nat) -> seq<Byte>

  datatype Error = EmptyPassword | KdfRefuses

  const SCHEME := "pbkdf2_sha256"
  const ITERATIONS := 600_000
  const SALT_BYTES := 16
  const KEY_LEN := 32

  ghost predicate GivesLength(kdf: Kdf) {
    forall p, s, n, length :: |kdf(p, s, n, length)| == length
  }

  function ShowDecimal(n: nat): string {
    if n < 10 then [(48 + n) as char] else ShowDecimal(n / 10) + [(48 + n % 10) as char]
  }

  function ParseDecimal(s: string): Option<nat> {
    if s == "" || !('0' <= s[|s| - 1] <= '9') then None
    else
      var last := s[|s| - 1] as int - 48;
      if |s| == 1 then Some(last)
      else
        match ParseDecimal(s[..|s| - 1])
        case None => None
        case Some(high) => Some(10 * high + last)
  }

  function Split(s: string): (fields: seq<string>)
    ensures |fields| >= 1
  {
    if s == "" then [""]
    else if s[0] == '$' then [""] + Split(s[1..])
    else
      var rest := Split(s[1..]);
      [[s[0]] + rest[0]] + rest[1..]
  }

  function Fields(a: string, b: string, c: string, d: string): string {
    a + "$" + (b + "$" + (c + "$" + d))
  }

  function HashPassword(kdf: Kdf, password: string, salt: seq<Byte>): Result<string, Error> {
    if password == "" then Err(EmptyPassword)
    else
      var derived := kdf(password, salt, ITERATIONS, KEY_LEN);
      Ok(Fields(SCHEME, ShowDecimal(ITERATIONS), StripPads(Encode(salt, true)), StripPads(Encode(derived, true))))
  }

  function VerifyPassword(kdf: Kdf, password: string, stored: string): Result<bool, Error> {
    if password == "" || stored == "" then Ok(false)
    else
      var parts := Split(stored);
      if |parts| != 4 || parts[0] != SCHEME then Ok(false)
      else
        var iterations, salt, expected := ParseDecimal(parts[1]), DecodeStripped(parts[2]), DecodeStripped(parts[3]);
        if iterations.None? || salt.None? || expected.None? then Ok(false)
        else if iterations.value == 0 || expected.value == [] then Err(KdfRefuses)
        else Ok(kdf(password, salt.value, iterations.value, |expected.value|) == expected.value)
  }

  lemma {:induction false} DecimalRoundTrip(n: nat)
    ensures ParseDecimal(ShowDecimal(n)) == Some(n) && '$' !in ShowDecimal(n) && ShowDecimal(n) != ""
  {
    if n >= 10 {
      DecimalRoundTrip(n / 10);
      var s := ShowDecimal(n);
      assert s[..|s| - 1] == ShowDecimal(n / 10);
    }
  }

  lemma {:induction false} SplitField(field: string, rest: string)
    requires '$' !in field
    ensures Split(field + "$" + rest) == [field] + Split(rest)
  {
    if field == "" {
      assert field + "$" + rest == "$" + rest;
    } else {
      SplitField(field[1..], rest);
      assert (field + "$" + rest)[1..] == field[1..] + "$" + rest;
      assert [field[0]] + field[1..] == field;
    }
  }

  lemma {:induction false} SplitLast(field: string)
    requires '$' !in field
    ensures Split(field) == [field]
  {
    if field != "" {
      SplitLast(field[1..]);
      assert [field[0]] + field[1..] == field;
    }
  }

  function Dollars(s: string): nat {
    if s == "" then 0 else (if s[0] == '$' then 1 else 0) + Dollars(s[1..])
  }

  lemma {:induction false} SplitCounts(s: string)
    ensures |Split(s)| == Dollars(s) + 1
    ensures |Split(s)| > 1 ==> Split(s)[0] + "$" <= s
  {
    if s != "" {
      SplitCounts(s[1..]);
      if s[0] != '$' && |Split(s)| > 1 {
        assert s == [s[0]] + s[1..];
        assert Split(s)[0] + "$" == [s[0]] + (Split(s[1..])[0] + "$");
      }
    }
  }

  /** A stored text that has not the four fields of the format, or starts with another scheme, verifies
      nothing, and an empty password never verifies. */
  lemma MalformedVerifiesNothing(kdf: Kdf, password: string, stored: string)
    requires password == "" || Dollars(stored) != 3 || !("pbkdf2_sha256$" <= stored)
    ensures VerifyPassword(kdf, password, stored) == Ok(false)
  {
    SplitCounts(stored);
    assert SCHEME + "$" == "pbkdf2_sha256$";
  }

  lemma SplitFour(a: string, b: string, c: string, d: string)
    requires '$' !in a && '$' !in b && '$' !in c && '$' !in d
    ensures Split(Fields(a, b, c, d)) == [a, b, c, d]
  {
    var cd := c + "$" + d;
    var bcd := b + "$" + cd;
    SplitField(a, bcd);
    SplitField(b, cd);
    SplitField(c, d);
    SplitLast(d);
  }

  lemma StoredFields(kdf: Kdf, password: string, salt: seq<Byte>)
    requires password != ""
    ensures var stored := HashPassword(kdf, password, salt);
      && stored.Ok? && stored.value != ""
      && Split(stored.value)
         == [SCHEME, ShowDecimal(ITERATIONS), StripPads(Encode(salt, true)),
             StripPads(Encode(kdf(password, salt, ITERATIONS, KEY_LEN), true))]
  {
    var derived := kdf(password, salt, ITERATIONS, KEY_LEN);
    DecimalRoundTrip(ITERATIONS);
    RestoredIsEncoded(salt, true);
    RestoredIsEncoded(derived, true);
    assert '$' !in SCHEME;
    SplitFour(SCHEME, ShowDecimal(ITERATIONS), StripPads(Encode(salt, true)), StripPads(Encode(derived, true)));
  }

  /** A password verifies against a stored hash exactly when it derives the same key from the
      stored salt; so the password that was hashed always does, and verification never errs. */
  lemma VerifiesIffSameKey(kdf: Kdf, password: string, salt: seq<Byte>, attempt: string)
    requires GivesLength(kdf) && password != ""
    ensures var stored := HashPassword(kdf, password, salt);
      && stored.Ok?
      && VerifyPassword(kdf, attempt, stored.value)
         == Ok(attempt != "" && kdf(attempt, salt, ITERATIONS, KEY_LEN) == kdf(password, salt, ITERATIONS, KEY_LEN))
      && VerifyPassword(kdf, password, stored.value) == Ok(true)
  {
    var derived := kdf(password, salt, ITERATIONS, KEY_LEN);
    StoredFields(kdf, password, salt);
    DecimalRoundTrip(ITERATIONS);
    StrippedRoundTrip(salt);
    StrippedRoundTrip(derived);
    assert |derived| == KEY_LEN;
  }
}
