/**
 * The validation patterns of the constants module (`emailRegex`,
 * `passwordRegex`, `userNameRegex`) as predicates over strings, each with a
 * direct decision procedure proved to agree with it, and the upload size cap.
 */
module Validators {
  import opened Chars
  import opened Strings

  /** `MAX_PROFILE_PICTURE_SIZE_IN_BYTES`: two mebibytes. */
  const MaxProfilePictureSizeInBytes: nat := 2 * 1024 * 1024

  // ---------------------------------------------------------------- email

  /** `[a-zA-Z0-9._%+-]` */
  predicate IsEmailLocalChar(c: char) {
    IsAsciiLetter(c) || IsDigit(c) || c == '.' || c == '_' || c == '%' || c == '+' || c == '-'
  }

  /** `[a-zA-Z0-9.-]` */
  predicate IsEmailDomainChar(c: char) {
    IsAsciiLetter(c) || IsDigit(c) || c == '.' || c == '-'
  }

  /**
   * The body `local@domain.tld` of `emailRegex` with '@' at `at` and the
   * final '.' at `dot`: a non-empty local part, a non-empty domain, and at
   * least two letters up to the end.
   */
  predicate EmailPartsAt(s: string, at: int, dot: int) {
    && 0 < at && at + 1 < dot && dot + 2 < |s|
    && s[at] == '@' && s[dot] == '.'
    && All(s[..at], IsEmailLocalChar)
    && All(s[at + 1..dot], IsEmailDomainChar)
    && All(s[dot + 1..], IsAsciiLetter)
  }

  /**
   * `emailRegex`: no whitespace anywhere, 6 to 320 characters, and some way of
   * reading the string as `local@domain.tld`.
   */
  predicate MatchesEmailRegex(s: string) {
    && !Any(s, IsWhitespace)
    && 6 <= |s| <= 320
    && exists at, dot | 0 <= at < |s| && 0 <= dot < |s| :: EmailPartsAt(s, at, dot)
  }

  /** Decides `emailRegex` by looking only at the first '@' and the last '.'. */
  function IsValidEmail(s: string): (ok: bool)
    ensures ok <==> MatchesEmailRegex(s)
  {
    var at := IndexOf(s, '@');
    var dot := LastIndexOf(s, '.');
    var ok := !Any(s, IsWhitespace) && 6 <= |s| <= 320 && EmailPartsAt(s, at, dot);
    assert ok <== MatchesEmailRegex(s) by {
      if MatchesEmailRegex(s) {
        var a, d :| EmailPartsAt(s, a, d);
        EmailPartsAreForced(s, a, d);
      }
    }
    ok
  }

  /** The only reading of an accepted email uses the first '@' and the last '.'. */
  lemma EmailPartsAreForced(s: string, at: int, dot: int)
    requires EmailPartsAt(s, at, dot)
    ensures at == IndexOf(s, '@') && dot == LastIndexOf(s, '.')
  {
  }

  /** No character outside a class occurs in a string drawn from it. */
  lemma AllExcludes(t: string, p: char -> bool, c: char)
    requires All(t, p) && !p(c)
    ensures c !in t
  {
  }

  /** A `local@domain.tld` reading leaves no room for a second '@'. */
  lemma OneAt(s: string, at: int, dot: int)
    requires EmailPartsAt(s, at, dot)
    ensures Count(s, '@') == 1
  {
    var local, domain, tld := s[..at], s[at + 1..dot], s[dot + 1..];
    AllExcludes(local, IsEmailLocalChar, '@');
    AllExcludes(domain, IsEmailDomainChar, '@');
    AllExcludes(tld, IsAsciiLetter, '@');
    CountAbsent(local, '@');
    CountAbsent(domain + ['.'] + tld, '@');
    assert s == (local + ['@']) + (domain + ['.'] + tld);
    CountAppend(local + ['@'], domain + ['.'] + tld, '@');
    CountAppend(local, ['@'], '@');
  }

  /**
   * An accepted email holds exactly one '@', its local part is non-empty and
   * drawn from `[A-Za-z0-9._%+-]`, and it ends with '.' and two or more letters.
   */
  lemma AcceptedEmailShape(s: string)
    requires MatchesEmailRegex(s)
    ensures 6 <= |s| <= 320 && !Any(s, IsWhitespace)
    ensures Count(s, '@') == 1
    ensures var at := IndexOf(s, '@');
      at > 0 && All(s[..at], IsEmailLocalChar)
    ensures var dot := LastIndexOf(s, '.');
      0 <= dot <= |s| - 3 && All(s[dot + 1..], IsAsciiLetter)
  {
    var at, dot :| 0 <= at < |s| && 0 <= dot < |s| && EmailPartsAt(s, at, dot);
    EmailPartsAreForced(s, at, dot);
    OneAt(s, at, dot);
  }

  // ------------------------------------------------------------- password

  /** The special-character class of `passwordRegex`: space and all ASCII punctuation. */
  predicate IsPasswordSpecial(c: char) {
    c == ' ' || ('!' <= c <= '/') || (':' <= c <= '@') || ('[' <= c <= '`') || ('{' <= c <= '~')
  }

  /** `[А-Яа-яЁёЇїЄєҐґІі]` */
  predicate IsBannedCyrillic(c: char) {
    || IsBasicCyrillic(c)
    || c == '\U{401}' || c == '\U{451}' || c == '\U{407}' || c == '\U{457}' || c == '\U{404}'
    || c == '\U{454}' || c == '\U{490}' || c == '\U{491}' || c == '\U{406}' || c == '\U{456}'
  }

  /** `[^\s"'=;-]` */
  predicate IsPasswordChar(c: char) {
    !IsWhitespace(c) && c != '"' && c != '\'' && c != '=' && c != ';' && c != '-'
  }

  /**
   * `passwordRegex`: no listed Cyrillic letter, at least one A-Z, one digit
   * and one special character, and every character from `[^\s"'=;-]`.
   */
  predicate MatchesPasswordRegex(s: string) {
    && !Any(s, IsBannedCyrillic)
    && Any(s, IsUpperAscii)
    && Any(s, IsDigit)
    && Any(s, IsPasswordSpecial)
    && All(s, IsPasswordChar)
  }

  /** One left-to-right pass that decides `passwordRegex`. */
  method CheckPassword(s: string) returns (ok: bool)
    ensures ok <==> MatchesPasswordRegex(s)
  {
    var upper, digit, special, clean := false, false, false, true;
    var i := 0;
    while i < |s|
      invariant 0 <= i <= |s|
      invariant upper <==> Any(s[..i], IsUpperAscii)
      invariant digit <==> Any(s[..i], IsDigit)
      invariant special <==> Any(s[..i], IsPasswordSpecial)
      invariant clean <==> !Any(s[..i], IsBannedCyrillic) && All(s[..i], IsPasswordChar)
    {
      var c := s[i];
      assert s[..i + 1] == s[..i] + [c];
      upper := upper || IsUpperAscii(c);
      digit := digit || IsDigit(c);
      special := special || IsPasswordSpecial(c);
      clean := clean && !IsBannedCyrillic(c) && IsPasswordChar(c);
      i := i + 1;
    }
    assert s[..i] == s;
    ok := upper && digit && special && clean;
  }

  /**
   * What an accepted password never contains: whitespace, any of `" ' = ; -`,
   * or a listed Cyrillic letter; and what it always contains.
   */
  lemma AcceptedPasswordShape(s: string)
    requires MatchesPasswordRegex(s)
    ensures forall i :: 0 <= i < |s| ==>
      !IsWhitespace(s[i]) && s[i] !in "\"'=;-" && !IsBannedCyrillic(s[i])
    ensures (exists i :: 0 <= i < |s| && IsUpperAscii(s[i]))
         && (exists i :: 0 <= i < |s| && IsDigit(s[i]))
         && (exists i :: 0 <= i < |s| && IsPasswordSpecial(s[i]))
  {
  }

  // ------------------------------------------------------------- username

  /** `[!@#\\$%^&*_+\-=~?]` */
  predicate IsUsernameSpecial(c: char) {
    || c == '!' || c == '@' || c == '#' || c == '\\' || c == '$' || c == '%' || c == '^'
    || c == '&' || c == '*' || c == '_' || c == '+' || c == '-' || c == '=' || c == '~' || c == '?'
  }

  /**
   * `[A-Za-z0-9А-Яа-яҐЄІЇґєії]` plus the special class, under the `i` flag:
   * a character also matches when its upper case is in the class, which adds
   * the historic Cyrillic letters U+1C80..U+1C86 (upper case В Д О С Т Т Ъ).
   */
  predicate IsUsernameChar(c: char) {
    || IsAsciiLetter(c) || IsDigit(c) || IsBasicCyrillic(c)
    || c == '\U{490}' || c == '\U{404}' || c == '\U{406}' || c == '\U{407}'
    || c == '\U{491}' || c == '\U{454}' || c == '\U{456}' || c == '\U{457}'
    || ('\U{1C80}' <= c <= '\U{1C86}')
    || IsUsernameSpecial(c)
  }

  /** Two special characters stand next to each other at position `i`. */
  predicate SpecialPairAt(s: string, i: int)
    requires 0 <= i < |s| - 1
  {
    IsUsernameSpecial(s[i]) && IsUsernameSpecial(s[i + 1])
  }

  /**
   * `userNameRegex`: 4 to 20 characters of the allowed class and no run of two
   * or more special characters.
   */
  predicate MatchesUsernameRegex(s: string) {
    && 4 <= |s| <= 20
    && All(s, IsUsernameChar)
    && forall i :: 0 <= i < |s| - 1 ==> !SpecialPairAt(s, i)
  }

  /** Scans for a doubled special character from the front. */
  function HasSpecialRun(s: string): (r: bool)
    ensures r <==> exists i :: 0 <= i < |s| - 1 && SpecialPairAt(s, i)
  {
    if |s| < 2 then false
    else if IsUsernameSpecial(s[0]) && IsUsernameSpecial(s[1]) then
      assert SpecialPairAt(s, 0);
      true
    else
      var r := HasSpecialRun(s[1..]);
      assert r ==> exists i :: 0 <= i < |s| - 1 && SpecialPairAt(s, i) by {
        if r {
          var i :| 0 <= i < |s[1..]| - 1 && SpecialPairAt(s[1..], i);
          assert SpecialPairAt(s, i + 1);
        }
      }
      assert (exists i :: 0 <= i < |s| - 1 && SpecialPairAt(s, i)) ==> r by {
        if exists i :: 0 <= i < |s| - 1 && SpecialPairAt(s, i) {
          var i :| 0 <= i < |s| - 1 && SpecialPairAt(s, i);
          assert i != 0;
          assert SpecialPairAt(s[1..], i - 1);
        }
      }
      r
  }

  /** Decides `userNameRegex`. */
  function IsValidUsername(s: string): (ok: bool)
    ensures ok <==> MatchesUsernameRegex(s)
  {
    4 <= |s| <= 20 && All(s, IsUsernameChar) && !HasSpecialRun(s)
  }
}
