/** The two field validators of templates.py, `is_valid_email` and
    `is_valid_phone`. Each one is a regular-expression test; this module
    states the same tests with character classes and relates them to a
    description of the strings each regular expression accepts.

    `\w` and `\d` are taken as their ASCII classes; `\s` is the `isspace`
    set, which is what Python's regular expressions use for `str` patterns. A
    missing value (`None`) is passed as "", which is what `x or ""` gives. */
module Validators {
  import opened PyStrings

  /** `\d`, ASCII digits. */
  predicate IsDigit(c: char) {
    '0' <= c <= '9'
  }

  /** `\w`, ASCII letters, digits and the underscore. */
  predicate IsWordChar(c: char) {
    ('a' <= c <= 'z') || ('A' <= c <= 'Z') || IsDigit(c) || c == '_'
  }

  // ---------------------------------------------------------------------------
  // is_valid_email: ^[\w\.-]+@[\w\.-]+\.\w+$ under re.match

  /** The class `[\w\.-]` of the local part and the domain. */
  predicate AddressChar(c: char) {
    IsWordChar(c) || c == '.' || c == '-'
  }

  /** The part of the input that `^...$` must cover: without `re.MULTILINE`,
      `$` also matches just before one final line break. */
  function Core(s: string): (c: string)
    ensures c == s || (s == c + "\n")
  {
    if s != "" && s[|s| - 1] == '\n' then s[..|s| - 1] else s
  }

  /** `c` is a local part, "@" at `at`, a domain, "." at `dot` and a non-empty
      run of word characters up to the end. */
  predicate EmailSplitAt(c: string, at: int, dot: int) {
    0 < at && at + 1 < dot && dot + 1 < |c|
    && c[at] == '@' && c[dot] == '.'
    && (forall k :: 0 <= k < at ==> AddressChar(c[k]))
    && (forall k :: at < k < dot ==> AddressChar(c[k]))
    && (forall k :: dot < k < |c| ==> IsWordChar(c[k]))
  }

  /** What the regular expression accepts: some way to cut the input into the
      three parts exists. */
  ghost predicate EmailPattern(s: string) {
    exists at, dot :: EmailSplitAt(Core(s), at, dot)
  }

  /** Position of the first `x` in `c`, or `|c|` when there is none. */
  function FirstIndexOf(c: string, x: char): (k: nat)
    ensures k <= |c| && (k < |c| ==> c[k] == x)
    ensures forall m :: 0 <= m < k ==> c[m] != x
  {
    if c == "" then 0
    else if c[0] == x then 0
    else 1 + FirstIndexOf(c[1..], x)
  }

  /** Position of the last `x` in `c`, or -1 when there is none. */
  function LastIndexOf(c: string, x: char): (k: int)
    ensures -1 <= k < |c| && (0 <= k ==> c[k] == x)
    ensures forall m :: k < m < |c| ==> c[m] != x
  {
    if c == "" then -1
    else if c[|c| - 1] == x then |c| - 1
    else LastIndexOf(c[..|c| - 1], x)
  }

  /** `is_valid_email(email)`. Neither part before the last dot may hold an
      "@" and the last part may hold no dot, so the only cut to try is at the
      first "@" and the last ".". */
  function IsValidEmail(email: string): bool {
    var c := Core(email);
    EmailSplitAt(c, FirstIndexOf(c, '@'), LastIndexOf(c, '.'))
  }

  /** The check accepts exactly the strings the regular expression matches. */
  lemma EmailCheckMatchesPattern(email: string)
    ensures IsValidEmail(email) <==> EmailPattern(email)
  {
    var c := Core(email);
    if EmailPattern(email) {
      var at, dot :| EmailSplitAt(c, at, dot);
      assert FirstIndexOf(c, '@') == at;
      assert LastIndexOf(c, '.') == dot;
    }
  }

  /** A valid address holds exactly one "@". */
  lemma ValidEmailHasOneAt(email: string)
    requires IsValidEmail(email)
    ensures var c := Core(email);
      exists at :: 0 <= at < |c| && c[at] == '@' && forall k :: 0 <= k < |c| && k != at ==> c[k] != '@'
  {
    var c := Core(email);
    var at := FirstIndexOf(c, '@');
    var dot := LastIndexOf(c, '.');
    forall k | 0 <= k < |c| && k != at ensures c[k] != '@' {
      if k < at { assert AddressChar(c[k]); }
      else if k < dot { assert AddressChar(c[k]); }
      else if k > dot { assert IsWordChar(c[k]); }
    }
  }

  /** `$` lets one line break through: an address followed by one "\n" is
      accepted exactly when the address is, and two line breaks are never
      accepted. */
  lemma EmailTrailingNewline(email: string)
    requires email == "" || email[|email| - 1] != '\n'
    ensures IsValidEmail(email + "\n") == IsValidEmail(email)
    ensures !IsValidEmail(email + "\n\n")
  {
    assert (email + "\n")[..|email|] == email;
    var e2 := email + "\n\n";
    assert e2[..|e2| - 1] == email + "\n";
    var c := Core(e2);
    var dot := LastIndexOf(c, '.');
    assert c[|c| - 1] == '\n' && !IsWordChar(c[|c| - 1]);
  }

  /** A missing address is invalid. */
  lemma EmailMissing()
    ensures !IsValidEmail("")
  {
  }

  lemma EmailExampleValid()
    ensures IsValidEmail("a@b.co")
  {
    assert FirstIndexOf("a@b.co", '@') == 1;
    assert LastIndexOf("a@b.co", '.') == 3;
  }

  lemma EmailExampleNoDot()
    ensures !IsValidEmail("john@localhost")
  {
    assert LastIndexOf("john@localhost", '.') == -1;
  }

  lemma EmailExampleNoLocalPart()
    ensures !IsValidEmail("@example.com")
  {
    assert FirstIndexOf("@example.com", '@') == 0;
  }

  // ---------------------------------------------------------------------------
  // is_valid_phone: strip, ^\+?[\d\s-]+$ under re.match, then 10 to 15 digits

  /** The class `[\d\s-]`. */
  predicate PhoneChar(c: char) {
    IsDigit(c) || IsSpace(c) || c == '-'
  }

  /** One or more characters of `[\d\s-]`. */
  predicate PhoneBody(p: string) {
    p != "" && forall k :: 0 <= k < |p| ==> PhoneChar(p[k])
  }

  /** `^\+?[\d\s-]+$`. The class holds the line break itself, so the final-newline
      rule of `$` changes nothing here. */
  predicate PhonePattern(p: string) {
    PhoneBody(p) || (p != "" && p[0] == '+' && PhoneBody(p[1..]))
  }

  /** `re.sub(r'\D', '', s)`: the digits of `s`, in order. */
  function Digits(s: string): (r: string)
    ensures |r| <= |s|
    ensures forall k :: 0 <= k < |r| ==> IsDigit(r[k])
  {
    if s == "" then ""
    else Digits(s[..|s| - 1]) + (if IsDigit(s[|s| - 1]) then [s[|s| - 1]] else "")
  }

  /** `is_valid_phone(phone)`. */
  function IsValidPhone(phone: string): bool {
    var p := Strip(phone);
    PhonePattern(p) && 10 <= |Digits(p)| <= 15
  }

  /** Taking the digits distributes over concatenation. */
  lemma {:induction false} DigitsAppend(a: string, b: string)
    ensures Digits(a + b) == Digits(a) + Digits(b)
    decreases |b|
  {
    if b == "" {
      assert a + b == a;
    } else {
      DigitsAppend(a, b[..|b| - 1]);
      assert (a + b)[..|a + b| - 1] == a + b[..|b| - 1];
    }
  }

  /** Taking the digits keeps a string of digits whole. */
  lemma {:induction false} DigitsOfDigits(s: string)
    requires forall k :: 0 <= k < |s| ==> IsDigit(s[k])
    ensures Digits(s) == s
    decreases |s|
  {
    if s != "" {
      DigitsOfDigits(s[..|s| - 1]);
    }
  }

  /** Taking the digits twice is taking them once. */
  lemma DigitsIdempotent(s: string)
    ensures Digits(Digits(s)) == Digits(s)
  {
    DigitsOfDigits(Digits(s));
  }

  /** A valid number is, after stripping, at least ten characters long, and
      holds nothing but digits, whitespace and "-", except for a "+" in front. */
  lemma ValidPhoneShape(phone: string)
    requires IsValidPhone(phone)
    ensures var p := Strip(phone);
      |p| >= 10
      && forall k :: 0 <= k < |p| ==> PhoneChar(p[k]) || (k == 0 && p[k] == '+')
  {
    var p := Strip(phone);
    if !PhoneBody(p) {
      forall k | 1 <= k < |p| ensures PhoneChar(p[k]) {
        assert p[k] == p[1..][k - 1];
      }
    }
  }

  /** Whitespace around the number does not matter. */
  lemma PhoneIgnoresSurroundingSpace(l: string, phone: string, r: string)
    requires AllSpace(l) && AllSpace(r)
    ensures IsValidPhone(l + phone + r) == IsValidPhone(phone)
  {
    StripSurrounded(l, phone, r);
  }

  /** Inside the number, "-" and a space are interchangeable separators. */
  lemma PhoneDashOrSpace(a: string, b: string)
    requires a != "" && !IsSpace(a[0])
    requires b != "" && !IsSpace(b[|b| - 1])
    ensures IsValidPhone(a + "-" + b) == IsValidPhone(a + " " + b)
  {
    var d := a + "-" + b;
    var s := a + " " + b;
    assert d[0] == a[0] && d[|d| - 1] == b[|b| - 1];
    assert s[0] == a[0] && s[|s| - 1] == b[|b| - 1];
    StripKeeps(d);
    StripKeeps(s);
    SeparatorDigits(a, '-', b);
    SeparatorDigits(a, ' ', b);
    SeparatorPattern(a, '-', ' ', b);
  }

  /** A separator adds no digit. */
  lemma SeparatorDigits(a: string, x: char, b: string)
    requires !IsDigit(x)
    ensures Digits(a + [x] + b) == Digits(a) + Digits(b)
  {
    DigitsAppend(a + [x], b);
    assert (a + [x])[..|a|] == a;
    assert Digits(a + [x]) == Digits(a);
  }

  /** Replacing one character of `[\d\s-]` by another keeps the pattern. */
  lemma SeparatorPattern(a: string, x: char, y: char, b: string)
    requires a != ""
    requires PhoneChar(x) && PhoneChar(y)
    ensures PhonePattern(a + [x] + b) == PhonePattern(a + [y] + b)
  {
    BodyAround(a, x, b);
    BodyAround(a, y, b);
    assert (a + [x] + b)[0] == a[0] && (a + [y] + b)[0] == a[0];
    assert (a + [x] + b)[1..] == a[1..] + [x] + b;
    assert (a + [y] + b)[1..] == a[1..] + [y] + b;
    BodyAround(a[1..], x, b);
    BodyAround(a[1..], y, b);
  }

  /** `[\d\s-]+` over a string with one character of the class in the middle. */
  lemma BodyAround(a: string, x: char, b: string)
    requires PhoneChar(x)
    ensures PhoneBody(a + [x] + b)
      <==> (forall k :: 0 <= k < |a| ==> PhoneChar(a[k])) && (forall k :: 0 <= k < |b| ==> PhoneChar(b[k]))
  {
    var d := a + [x] + b;
    if PhoneBody(d) {
      forall k | 0 <= k < |b| ensures PhoneChar(b[k]) { assert b[k] == d[|a| + 1 + k]; }
      forall k | 0 <= k < |a| ensures PhoneChar(a[k]) { assert a[k] == d[k]; }
    }
  }

  /** A missing number is invalid, and so is a lone "+". */
  lemma PhoneMissing()
    ensures !IsValidPhone("")
    ensures !IsValidPhone("+")
  {
    assert Strip("") == "";
    StripKeeps("+");
  }

  lemma PhoneExampleValid()
    ensures IsValidPhone("+0123456789")
  {
    var g := "+0123456789";
    var body := "0123456789";
    StripKeeps(g);
    assert g[1..] == body;
    assert PhoneBody(body);
    assert g == "+" + body;
    DigitsAppend("+", body);
    DigitsOfDigits(body);
  }

  lemma PhoneExampleTooShort()
    ensures !IsValidPhone("555-1234")
  {
    StripKeeps("555-1234");
    SeparatorDigits("555", '-', "1234");
    DigitsOfDigits("555");
    DigitsOfDigits("1234");
  }

  /** Parentheses are refused, whatever the digit count. */
  lemma PhoneExampleParentheses()
    ensures !IsValidPhone("(555) 123-4567")
  {
    StripKeeps("(555) 123-4567");
    assert !PhoneChar('(');
  }
}
