/**
 * The small display formatters of the page: photo URLs resolved against the
 * API base, the `tel:` link built from a company phone number, the Turkish
 * licence-plate layout of the unit form, and the avatar initials of the
 * signed-in user.
 */
module Format {
  import opened Common
  import opened Text

  /** The API base used when `NEXT_PUBLIC_API_BASE` is not set. */
  const DefaultApiBase := "https://api.yoldancek.com"

  /** `process.env.NEXT_PUBLIC_API_BASE || "https://api.yoldancek.com"`; "" stands for unset. */
  function ApiBase(env: string): (r: string)
    ensures StartsWith(r, "http") || r == env
    ensures env != "" ==> r == env
    ensures env == "" ==> r == DefaultApiBase
    ensures r != ""
  {
    if env != "" then env else DefaultApiBase
  }

  /**
   * The photo URL of a unit: none for a missing or empty path, an absolute
   * `http` URL as it is, anything else appended to `base`.
   */
  function PhotoUrl(base: string, url: string): (r: Option<string>)
    ensures r.None? <==> url == ""
    ensures StartsWith(url, "http") ==> r == Some(url)
    ensures url != "" && !StartsWith(url, "http") ==>
      r == Some(base + "/" + (if url[0] == '/' then url[1..] else url))
  {
    if url == "" then None
    else if StartsWith(url, "http") then Some(url)
    else
      OneSlash(base, url);
      Some(base + (if StartsWith(url, "/") then "" else "/") + url)
  }

  lemma OneSlash(base: string, url: string)
    requires url != ""
    ensures base + (if StartsWith(url, "/") then "" else "/") + url
         == base + "/" + (if url[0] == '/' then url[1..] else url)
  {
    assert url[..1] == [url[0]];
    if url[0] == '/' {
      assert url == "/" + url[1..];
      assert base + "" + url == base + ("/" + url[1..]);
    }
  }

  lemma StartsWithConcat(a: string, b: string, prefix: string)
    requires StartsWith(a, prefix)
    ensures StartsWith(a + b, prefix)
  {
    assert (a + b)[..|prefix|] == a[..|prefix|];
  }

  /** With an `http` base, resolving an already resolved URL changes nothing. */
  lemma PhotoUrlIdempotent(base: string, url: string)
    requires StartsWith(base, "http")
    requires url != ""
    ensures PhotoUrl(base, PhotoUrl(base, url).value) == PhotoUrl(base, url)
  {
    if !StartsWith(url, "http") {
      var tail := (if StartsWith(url, "/") then "" else "/") + url;
      assert base + (if StartsWith(url, "/") then "" else "/") + url == base + tail;
      StartsWithConcat(base, tail, "http");
    }
  }

  /** The characters the phone cleaner keeps. */
  predicate PhoneChar(c: char) {
    IsDigit(c) || c == '+'
  }

  predicate NotSpace(c: char) {
    !IsSpace(c)
  }

  lemma PhoneCharNotSpace(c: char)
    requires PhoneChar(c)
    ensures NotSpace(c)
  {}

  /** `s.replace(/^0+/, "")`. */
  function DropLeadingZeros(s: string): (r: string)
    ensures |r| <= |s| && r == s[|s| - |r|..]
    ensures forall i :: 0 <= i < |s| - |r| ==> s[i] == '0'
    ensures r != [] ==> r[0] != '0'
  {
    if s != [] && s[0] == '0' then DropLeadingZeros(s[1..]) else s
  }

  /** Only a string of zeros loses everything. */
  lemma {:induction false} DropLeadingZerosEmpty(s: string)
    ensures DropLeadingZeros(s) == "" <==> forall i :: 0 <= i < |s| ==> s[i] == '0'
  {
    if s != [] && s[0] == '0' {
      DropLeadingZerosEmpty(s[1..]);
      assert forall i :: 1 <= i < |s| ==> s[i] == s[1..][i - 1];
    }
  }

  /** The number after trimming and dropping everything but digits and `+`. */
  function PhoneDigits(phone: string): string {
    Filter(Trim(phone), PhoneChar)
  }

  /** Without a leading `+`, leading zeros of the national prefix go. */
  function WithoutPrefixZeros(cleaned: string): string {
    if StartsWith(cleaned, "+") then cleaned else DropLeadingZeros(cleaned)
  }

  /**
   * `phoneWithCountry` on the cleaned number: "" when nothing but zeros is left,
   * the number as it is when it starts with `+`, otherwise the number behind
   * the Turkish code `+90 `.
   */
  function CountryForm(cleaned: string): (r: string)
    ensures r == "" <==> forall i :: 0 <= i < |cleaned| ==> cleaned[i] == '0'
    ensures r != "" ==> r[0] == '+'
  {
    WithoutPrefixZerosEmpty(cleaned);
    var w := WithoutPrefixZeros(cleaned);
    if w == "" then ""
    else if StartsWith(w, "+") then w
    else
      assert ("+90 " + w)[0] == "+90 "[0];
      "+90 " + w
  }

  /** Only a number of zeros loses everything to the prefix rule. */
  lemma WithoutPrefixZerosEmpty(cleaned: string)
    ensures WithoutPrefixZeros(cleaned) == "" <==> forall i :: 0 <= i < |cleaned| ==> cleaned[i] == '0'
    ensures StartsWith(WithoutPrefixZeros(cleaned), "+") ==> WithoutPrefixZeros(cleaned)[0] == '+'
  {
    DropLeadingZerosEmpty(cleaned);
    if StartsWith(cleaned, "+") {
      assert cleaned[0] == cleaned[..1][0];
    }
  }

  function PhoneWithCountry(phone: string): (r: string)
    ensures r == "" <==> forall i :: 0 <= i < |PhoneDigits(phone)| ==> PhoneDigits(phone)[i] == '0'
    ensures r != "" ==> r[0] == '+'
  {
    CountryForm(PhoneDigits(phone))
  }

  /** `phoneHref`: `tel:` and the number with its whitespace removed, none without a number. */
  function TelHref(phone: string): (r: Option<string>)
    ensures r.None? <==> PhoneWithCountry(phone) == ""
    ensures r.Some? ==> StartsWith(r.value, "tel:+")
  {
    var p := PhoneWithCountry(phone);
    if p == "" then None else Some("tel:" + Filter(p, NotSpace))
  }

  /** What is left after the zeros are dropped consists of digits and `+` only. */
  lemma KeptPhoneChars(phone: string)
    ensures forall i :: 0 <= i < |WithoutPrefixZeros(PhoneDigits(phone))| ==>
      PhoneChar(WithoutPrefixZeros(PhoneDigits(phone))[i])
  {
    var d := PhoneDigits(phone);
    var w := WithoutPrefixZeros(d);
    forall i | 0 <= i < |w| ensures PhoneChar(w[i]) {
      assert w[i] == d[|d| - |w| + i];
    }
  }

  /** A string of digits and `+` has no whitespace to remove. */
  lemma NoSpaceInPhoneChars(w: string)
    requires forall i :: 0 <= i < |w| ==> PhoneChar(w[i])
    ensures Filter(w, NotSpace) == w
    ensures Filter(w, PhoneChar) == w
    ensures Trim(w) == w
  {
    forall i | 0 <= i < |w| ensures NotSpace(w[i]) {
      PhoneCharNotSpace(w[i]);
    }
    if w != [] {
      PhoneCharNotSpace(w[0]);
      PhoneCharNotSpace(w[|w| - 1]);
    }
    assert TrimStart(w) == w;
    assert TrimEnd(w) == w;
  }

  /**
   * The link dials the digits kept from the number behind `+90`, or the kept
   * number itself when it already had a country code.
   */
  lemma TelHrefDigits(phone: string)
    requires TelHref(phone).Some?
    ensures var w := WithoutPrefixZeros(PhoneDigits(phone));
      TelHref(phone).value == (if StartsWith(w, "+") then "tel:" + w else "tel:+90" + w)
  {
    var w := WithoutPrefixZeros(PhoneDigits(phone));
    if w == "" {
      NoCountryForm(PhoneDigits(phone));
    } else if StartsWith(w, "+") {
      TelHrefInternational(phone);
    } else {
      TelHrefNational(phone);
    }
  }

  lemma NoCountryForm(cleaned: string)
    requires WithoutPrefixZeros(cleaned) == ""
    ensures CountryForm(cleaned) == ""
  {}

  lemma TelHrefInternational(phone: string)
    requires var w := WithoutPrefixZeros(PhoneDigits(phone)); w != "" && StartsWith(w, "+")
    ensures TelHref(phone) == Some("tel:" + WithoutPrefixZeros(PhoneDigits(phone)))
  {
    var w := WithoutPrefixZeros(PhoneDigits(phone));
    assert PhoneWithCountry(phone) == w;
    KeptPhoneChars(phone);
    NoSpaceInPhoneChars(w);
  }

  lemma TelHrefNational(phone: string)
    requires var w := WithoutPrefixZeros(PhoneDigits(phone)); w != "" && !StartsWith(w, "+")
    ensures TelHref(phone) == Some("tel:+90" + WithoutPrefixZeros(PhoneDigits(phone)))
  {
    var w := WithoutPrefixZeros(PhoneDigits(phone));
    assert PhoneWithCountry(phone) == "+90 " + w;
    KeptPhoneChars(phone);
    SpacelessCountryCode(w);
    TelPrefix(w);
  }

  lemma TelPrefix(w: string)
    ensures "tel:" + ("+90" + w) == "tel:+90" + w
  {
    assert "tel:+90" == "tel:" + "+90";
  }

  lemma SpacelessCountryCode(w: string)
    requires forall i :: 0 <= i < |w| ==> PhoneChar(w[i])
    ensures Filter("+90 " + w, NotSpace) == "+90" + w
    ensures Filter("+90 " + w, PhoneChar) == "+90" + w
  {
    NoSpaceInPhoneChars(w);
    FilterConcat("+90 ", w, NotSpace);
    FilterConcat("+90 ", w, PhoneChar);
    CountryCodeFilters();
  }

  lemma CountryCodeFilters()
    ensures Filter("+90 ", NotSpace) == "+90"
    ensures Filter("+90 ", PhoneChar) == "+90"
  {
    CountryCodeNotSpace();
    CountryCodePhoneChars();
  }

  lemma CountryCodeNotSpace()
    ensures Filter("+90 ", NotSpace) == "+90"
  {
    assert "+90 " == "+90" + " ";
    FilterConcat("+90", " ", NotSpace);
    assert NotSpace('+') && NotSpace('9') && NotSpace('0') && !NotSpace(' ');
  }

  lemma CountryCodePhoneChars()
    ensures Filter("+90 ", PhoneChar) == "+90"
  {
    assert "+90 " == "+90" + " ";
    FilterConcat("+90", " ", PhoneChar);
    assert PhoneChar('+') && PhoneChar('9') && PhoneChar('0') && !PhoneChar(' ');
  }

  /** Formatting a formatted number dials the same link. */
  lemma TelHrefStable(phone: string)
    ensures TelHref(PhoneWithCountry(phone)) == TelHref(phone)
  {
    var w := WithoutPrefixZeros(PhoneDigits(phone));
    KeptPhoneChars(phone);
    if w == "" {
      assert PhoneWithCountry(phone) == "";
      assert Trim("") == "";
      assert PhoneWithCountry("") == "";
    } else if StartsWith(w, "+") {
      StableInternational(phone, w);
    } else {
      StableNational(phone, w);
    }
  }

  lemma StableInternational(phone: string, w: string)
    requires w == WithoutPrefixZeros(PhoneDigits(phone)) && w != "" && StartsWith(w, "+")
    requires forall i :: 0 <= i < |w| ==> PhoneChar(w[i])
    ensures TelHref(PhoneWithCountry(phone)) == TelHref(phone)
  {
    NoSpaceInPhoneChars(w);
    assert PhoneWithCountry(phone) == w;
    assert PhoneDigits(w) == w;
    assert WithoutPrefixZeros(w) == w;
    assert PhoneWithCountry(w) == w;
  }

  lemma StableNational(phone: string, w: string)
    requires w == WithoutPrefixZeros(PhoneDigits(phone)) && w != "" && !StartsWith(w, "+")
    requires forall i :: 0 <= i < |w| ==> PhoneChar(w[i])
    ensures TelHref(PhoneWithCountry(phone)) == TelHref(phone)
  {
    var p := PhoneWithCountry(phone);
    var q := "+90" + w;
    assert p == "+90 " + w;
    SpacelessCountryCode(w);
    CountryCodeTrimmed(w);
    assert PhoneDigits(p) == q;
    assert StartsWith(q, "+");
    assert WithoutPrefixZeros(q) == q;
    assert PhoneWithCountry(p) == q;
    CountryCodeChars(w);
    NoSpaceInPhoneChars(q);
    assert TelHref(p) == Some("tel:" + q);
  }

  lemma CountryCodeTrimmed(w: string)
    requires w != "" && forall i :: 0 <= i < |w| ==> PhoneChar(w[i])
    ensures Trim("+90 " + w) == "+90 " + w
  {
    var p := "+90 " + w;
    assert p[0] == '+';
    assert p[|p| - 1] == w[|w| - 1];
    PhoneCharNotSpace(w[|w| - 1]);
    assert TrimStart(p) == p;
    assert TrimEnd(p) == p;
  }

  lemma CountryCodeChars(w: string)
    requires forall i :: 0 <= i < |w| ==> PhoneChar(w[i])
    ensures forall i :: 0 <= i < |"+90" + w| ==> PhoneChar(("+90" + w)[i])
  {
    var q := "+90" + w;
    forall i | 0 <= i < |q| ensures PhoneChar(q[i]) {
      if i >= 3 { assert q[i] == w[i - 3]; }
    }
  }

  /** The characters the plate cleaner keeps: digits, ASCII letters and the Turkish letters. */
  predicate PlateChar(c: char) {
    IsDigit(c) || ('A' <= c <= 'Z') || ('a' <= c <= 'z') || ('Ç' <= c && TurkishLetter(c))
  }

  predicate TurkishLetter(c: char) {
    TurkishCapital(c) || c == 'ç' || c == 'ğ' || c == 'ı' || c == 'ö' || c == 'ş' || c == 'ü'
  }

  predicate TurkishCapital(c: char) {
    c == 'Ç' || c == 'Ğ' || c == 'İ' || c == 'Ö' || c == 'Ş' || c == 'Ü'
  }

  /** What a kept character becomes once upper-cased: a digit or a capital. */
  predicate PlateSymbol(c: char) {
    IsDigit(c) || ('A' <= c <= 'Z') || ('Ç' <= c && TurkishCapital(c))
  }

  predicate NonDigit(c: char) {
    !IsDigit(c)
  }

  predicate AllSymbols(s: string) {
    forall i :: 0 <= i < |s| ==> PlateSymbol(s[i])
  }

  lemma UpperPlateChar(c: char)
    requires PlateChar(c)
    ensures PlateSymbol(Upper(c))
  {}

  lemma PlateSymbolFixed(c: char)
    requires PlateSymbol(c)
    ensures PlateChar(c) && Upper(c) == c
  {}

  /** `s.slice(a, b)`: out-of-range bounds are clamped to the string. */
  function Slice(s: string, a: nat, b: nat): (r: string)
    ensures |r| <= |s| && (a <= b ==> |r| <= b - a)
    ensures a <= b <= |s| ==> r == s[a..b]
  {
    var lo := if a < |s| then a else |s|;
    var hi := if b < lo then lo else if b < |s| then b else |s|;
    s[lo..hi]
  }

  /** A non-empty group of the plate, behind its separating blank. */
  function Group(x: string): (r: string)
    ensures x == "" ==> r == ""
    ensures x != "" ==> r == " " + x
  {
    if x == "" then "" else " " + x
  }

  /** The cleaned input: only the kept characters, upper-cased. */
  function CleanPlate(value: string): (r: string)
    ensures AllSymbols(r)
    ensures r == "" <==> forall i :: 0 <= i < |value| ==> !PlateChar(value[i])
  {
    var kept := Filter(value, PlateChar);
    forall i | 0 <= i < |kept| ensures PlateSymbol(Upper(kept[i])) {
      UpperPlateChar(kept[i]);
    }
    UpperAll(kept)
  }

  /**
   * A plate laid out as `h`, then the letter group `l` and the digit group `n`,
   * each behind a blank when present: one or two leading symbols, at most three
   * non-digits, at most four digits.
   */
  predicate PlateLayout(r: string, h: string, l: string, n: string) {
    && r == h + Group(l) + Group(n)
    && 1 <= |h| <= 2 && |l| <= 3 && |n| <= 4
    && AllSymbols(h) && AllSymbols(l) && AllSymbols(n)
    && (forall i :: 0 <= i < |l| ==> NonDigit(l[i]))
    && (forall i :: 0 <= i < |n| ==> IsDigit(n[i]))
  }

  /** A laid-out plate is at most eleven characters long and upper-case. */
  lemma PlateLayoutShape(r: string, h: string, l: string, n: string)
    requires PlateLayout(r, h, l, n)
    ensures |r| <= 11
    ensures UpperAll(r) == r
  {
    forall i | 0 <= i < |r| ensures Upper(r[i]) == r[i] {
      if i < |h| {
        PlateSymbolFixed(h[i]);
      } else if i < |h + Group(l)| {
        if r[i] != ' ' {
          assert l != "" && r[i] == l[i - |h| - 1];
          PlateSymbolFixed(l[i - |h| - 1]);
        }
      } else if r[i] != ' ' {
        var j := i - |h + Group(l)|;
        assert n != "" && r[i] == n[j - 1];
        PlateSymbolFixed(n[j - 1]);
      }
    }
  }

  /**
   * `formatLicensePlate` as written: the first two cleaned characters, then the
   * non-digits among the next three, then the digits among the four after
   * those, whatever those positions hold.
   */
  function FormatLicensePlate(value: string): (r: string)
    ensures r == "" <==> CleanPlate(value) == ""
  {
    var cleaned := CleanPlate(value);
    if |cleaned| == 0 then ""
    else
      var formatted := Slice(cleaned, 0, 2);
      if |cleaned| > 2 then
        var letters := Filter(Slice(cleaned, 2, 5), NonDigit);
        var withLetters := formatted + (if |letters| > 0 then " " + letters else "");
        if |cleaned| > 5 then
          var numbers := Filter(Slice(cleaned, 5, 9), IsDigit);
          withLetters + (if |numbers| > 0 then " " + numbers else "")
        else withLetters
      else formatted
  }

  /** The slice of a string of symbols holds symbols only, and so does any filter of it. */
  lemma SliceSymbols(s: string, a: nat, b: nat, p: char -> bool)
    requires AllSymbols(s)
    ensures AllSymbols(Slice(s, a, b)) && AllSymbols(Filter(Slice(s, a, b), p))
  {
    var t := Slice(s, a, b);
    assert forall i :: 0 <= i < |t| ==> PlateSymbol(t[i]) by {
      var lo := if a < |s| then a else |s|;
      assert forall i :: 0 <= i < |t| ==> t[i] == s[lo + i];
    }
    FilterKeeps(t, p, PlateSymbol);
  }

  /** The as-written output of a non-empty input follows the plate layout, led by the first two cleaned characters. */
  lemma FormatLicensePlateLayout(value: string) returns (h: string, l: string, n: string)
    requires CleanPlate(value) != ""
    ensures PlateLayout(FormatLicensePlate(value), h, l, n)
    ensures h == Slice(CleanPlate(value), 0, 2)
    ensures |FormatLicensePlate(value)| <= 11 && UpperAll(FormatLicensePlate(value)) == FormatLicensePlate(value)
  {
    var cleaned := CleanPlate(value);
    h := Slice(cleaned, 0, 2);
    SliceSymbols(cleaned, 0, 2, NonDigit);
    SliceSymbols(cleaned, 2, 5, NonDigit);
    SliceSymbols(cleaned, 5, 9, IsDigit);
    l := if |cleaned| > 2 then Filter(Slice(cleaned, 2, 5), NonDigit) else "";
    n := if |cleaned| > 5 then Filter(Slice(cleaned, 5, 9), IsDigit) else "";
    PlateLayoutShape(FormatLicensePlate(value), h, l, n);
  }

  /**
   * The length of the run of non-digits, at most `cap` long, that starts `s`.
   */
  function LetterRun(s: string, cap: nat): (k: nat)
    ensures k <= cap && k <= |s|
    ensures forall i :: 0 <= i < k ==> NonDigit(s[i])
    ensures k < cap && k < |s| ==> IsDigit(s[k])
  {
    if cap == 0 || s == [] || IsDigit(s[0]) then 0 else 1 + LetterRun(s[1..], cap - 1)
  }

  /** The province code: the first two cleaned characters, or all of them when there are fewer. */
  function PlateHead(cleaned: string): (h: string)
    ensures |h| <= 2 && |h| <= |cleaned| && h == cleaned[..|h|]
    ensures |h| < 2 ==> h == cleaned
  {
    Slice(cleaned, 0, 2)
  }

  /** What follows the province code. */
  function PlateTail(cleaned: string): (t: string)
    ensures cleaned == PlateHead(cleaned) + t
  {
    cleaned[|PlateHead(cleaned)|..]
  }

  /** The letter group: the run of up to three non-digits after the province code. */
  function PlateLetters(cleaned: string): (l: string)
    ensures |l| <= 3 && |l| <= |PlateTail(cleaned)| && l == PlateTail(cleaned)[..|l|]
    ensures forall i :: 0 <= i < |l| ==> NonDigit(l[i])
    ensures |l| < 3 && |l| < |PlateTail(cleaned)| ==> IsDigit(PlateTail(cleaned)[|l|])
  {
    PlateTail(cleaned)[..LetterRun(PlateTail(cleaned), 3)]
  }

  /** The digit group: the digits among the four positions after the letter group. */
  function PlateDigits(cleaned: string): (n: string)
    ensures |n| <= 4
    ensures forall i :: 0 <= i < |n| ==> IsDigit(n[i])
    ensures |PlateLetters(cleaned)| < 3 && n != "" ==> IsDigit(n[0])
  {
    Filter(Slice(PlateTail(cleaned), |PlateLetters(cleaned)|, |PlateLetters(cleaned)| + 4), IsDigit)
  }

  /**
   * The plate layout as evidently intended: after the two leading characters,
   * the letter group is the run of up to three non-digits that follows, and the
   * digit group is read from the four positions after that run.
   */
  function FormatPlateIntended(value: string): (r: string)
    ensures r == "" <==> CleanPlate(value) == ""
  {
    ArrangePlate(CleanPlate(value))
  }

  function ArrangePlate(cleaned: string): (r: string)
    ensures r == "" <==> cleaned == ""
  {
    PlateHead(cleaned) + Group(PlateLetters(cleaned)) + Group(PlateDigits(cleaned))
  }

  /** The groups of a cleaned plate hold symbols only. */
  lemma PlatePartsSymbols(cleaned: string)
    requires AllSymbols(cleaned)
    ensures AllSymbols(PlateHead(cleaned)) && AllSymbols(PlateLetters(cleaned)) && AllSymbols(PlateDigits(cleaned))
  {
    var t := PlateTail(cleaned);
    var h := PlateHead(cleaned);
    var l := PlateLetters(cleaned);
    assert forall i :: 0 <= i < |h| ==> h[i] == cleaned[i];
    assert forall i :: 0 <= i < |t| ==> t[i] == cleaned[|h| + i];
    assert forall i :: 0 <= i < |l| ==> l[i] == t[i];
    SliceSymbols(t, |l|, |l| + 4, IsDigit);
  }

  /** The intended output follows the plate layout: province code, letter group, digit group. */
  lemma ArrangePlateLayout(cleaned: string) returns (h: string, l: string, n: string)
    requires cleaned != "" && AllSymbols(cleaned)
    ensures PlateLayout(ArrangePlate(cleaned), h, l, n)
    ensures h == PlateHead(cleaned) && l == PlateLetters(cleaned) && n == PlateDigits(cleaned)
  {
    h, l, n := PlateHead(cleaned), PlateLetters(cleaned), PlateDigits(cleaned);
    PlatePartsSymbols(cleaned);
    assert |h| >= 1;
  }

  /** Removing the blanks of a laid-out plate gives back its groups. */
  lemma CleanLayout(r: string, h: string, l: string, n: string)
    requires PlateLayout(r, h, l, n)
    ensures CleanPlate(r) == h + l + n
  {
    FilterConcat(h + Group(l), Group(n), PlateChar);
    FilterConcat(h, Group(l), PlateChar);
    GroupFilter(l);
    GroupFilter(n);
    SymbolsKept(h);
    assert Filter(r, PlateChar) == h + l + n;
    ConcatSymbols(h, l, n);
    SymbolsKept(h + l + n);
  }

  lemma ConcatSymbols(h: string, l: string, n: string)
    requires AllSymbols(h) && AllSymbols(l) && AllSymbols(n)
    ensures AllSymbols(h + l + n)
  {
    var s := h + l + n;
    forall i | 0 <= i < |s| ensures PlateSymbol(s[i]) {
      if i < |h| { assert s[i] == h[i]; }
      else if i < |h| + |l| { assert s[i] == l[i - |h|]; }
      else { assert s[i] == n[i - |h| - |l|]; }
    }
  }

  lemma GroupFilter(x: string)
    requires AllSymbols(x)
    ensures Filter(Group(x), PlateChar) == x
  {
    if x != "" {
      FilterConcat(" ", x, PlateChar);
      forall i | 0 <= i < |x| ensures PlateChar(x[i]) { PlateSymbolFixed(x[i]); }
    }
  }

  /** A run of at most `cap` non-digits followed by a digit, or by nothing, is read as that run. */
  lemma {:induction false} LetterRunOf(l: string, n: string, cap: nat)
    requires |l| <= cap
    requires forall i :: 0 <= i < |l| ==> NonDigit(l[i])
    requires |l| < cap && n != "" ==> IsDigit(n[0])
    ensures LetterRun(l + n, cap) == |l|
  {
    if l == "" {
      assert l + n == n;
    } else {
      assert (l + n)[0] == l[0] && (l + n)[1..] == l[1..] + n;
      LetterRunOf(l[1..], n, cap - 1);
    }
  }

  /** Re-reading the groups of a laid-out plate finds the same groups. */
  lemma ArrangeLayout(h: string, l: string, n: string)
    requires 1 <= |h| <= 2 && |l| <= 3 && |n| <= 4
    requires forall i :: 0 <= i < |l| ==> NonDigit(l[i])
    requires forall i :: 0 <= i < |n| ==> IsDigit(n[i])
    requires |h| < 2 ==> l == "" && n == ""
    requires |l| < 3 && n != "" ==> IsDigit(n[0])
    ensures ArrangePlate(h + l + n) == h + Group(l) + Group(n)
  {
    HeadAgain(h, l, n);
    LettersAgain(h, l, n);
    DigitsAgain(h, l, n);
  }

  lemma TailAgain(h: string, l: string, n: string)
    requires 1 <= |h| <= 2
    requires |h| < 2 ==> l == "" && n == ""
    ensures PlateTail(h + l + n) == l + n
  {
    HeadAgain(h, l, n);
    assert (h + l + n)[|h|..] == l + n;
  }

  lemma LettersAgain(h: string, l: string, n: string)
    requires 1 <= |h| <= 2 && |l| <= 3
    requires forall i :: 0 <= i < |l| ==> NonDigit(l[i])
    requires |h| < 2 ==> l == "" && n == ""
    requires |l| < 3 && n != "" ==> IsDigit(n[0])
    ensures PlateLetters(h + l + n) == l
  {
    TailAgain(h, l, n);
    LetterRunOf(l, n, 3);
    assert (l + n)[..|l|] == l;
  }

  lemma DigitsAgain(h: string, l: string, n: string)
    requires 1 <= |h| <= 2 && |l| <= 3 && |n| <= 4
    requires forall i :: 0 <= i < |l| ==> NonDigit(l[i])
    requires forall i :: 0 <= i < |n| ==> IsDigit(n[i])
    requires |h| < 2 ==> l == "" && n == ""
    requires |l| < 3 && n != "" ==> IsDigit(n[0])
    ensures PlateDigits(h + l + n) == n
  {
    TailAgain(h, l, n);
    LettersAgain(h, l, n);
    SliceAfter(l, n, 4);
    assert Filter(n, IsDigit) == n;
  }

  lemma SliceAfter(l: string, n: string, width: nat)
    requires |n| <= width
    ensures Slice(l + n, |l|, |l| + width) == n
  {
    assert (l + n)[|l|..] == n;
  }

  lemma HeadAgain(h: string, l: string, n: string)
    requires 1 <= |h| <= 2
    requires |h| < 2 ==> l == "" && n == ""
    ensures PlateHead(h + l + n) == h
  {
    assert (h + l + n)[..|h|] == h;
  }

  /**
   * The intended formatter is idempotent: formatting on every keystroke does
   * not disturb what is already laid out.
   */
  lemma FormatPlateIntendedIdempotent(value: string)
    ensures FormatPlateIntended(FormatPlateIntended(value)) == FormatPlateIntended(value)
  {
    var cleaned := CleanPlate(value);
    if cleaned != "" {
      var r := FormatPlateIntended(value);
      var h, l, n := ArrangePlateLayout(cleaned);
      CleanLayout(r, h, l, n);
      ArrangeLayout(h, l, n);
    }
  }

  /** On the documented three-letter plates the two formatters agree. */
  lemma FormatPlateIntendedAgrees(value: string)
    requires |CleanPlate(value)| >= 5
    requires forall i :: 2 <= i < 5 ==> NonDigit(CleanPlate(value)[i])
    ensures FormatPlateIntended(value) == FormatLicensePlate(value)
  {
    var cleaned := CleanPlate(value);
    AgreeHead(cleaned);
    AgreeLetters(cleaned);
    AgreeDigits(cleaned);
    if |cleaned| == 5 {
      assert Slice(cleaned, 5, 9) == "";
    }
  }

  lemma AgreeHead(cleaned: string)
    requires |cleaned| >= 5
    ensures PlateHead(cleaned) == Slice(cleaned, 0, 2) && |PlateHead(cleaned)| == 2
    ensures PlateTail(cleaned) == cleaned[2..]
  {}

  lemma AgreeLetters(cleaned: string)
    requires |cleaned| >= 5
    requires forall i :: 2 <= i < 5 ==> NonDigit(cleaned[i])
    ensures PlateLetters(cleaned) == Slice(cleaned, 2, 5) == Filter(Slice(cleaned, 2, 5), NonDigit)
  {
    AgreeHead(cleaned);
    var rest := cleaned[2..];
    assert forall i :: 0 <= i < 3 ==> rest[i] == cleaned[i + 2];
    assert LetterRun(rest, 3) == 3;
    assert rest[..3] == Slice(cleaned, 2, 5);
  }

  lemma AgreeDigits(cleaned: string)
    requires |cleaned| >= 5
    requires forall i :: 2 <= i < 5 ==> NonDigit(cleaned[i])
    ensures PlateDigits(cleaned) == Filter(Slice(cleaned, 5, 9), IsDigit)
  {
    AgreeHead(cleaned);
    AgreeLetters(cleaned);
    assert Slice(cleaned[2..], 3, 7) == Slice(cleaned, 5, 9);
  }

  /** With two letters, the digit typed next is lost by the code as written ... */
  lemma TwoLetterDigitLost(d: char)
    requires IsDigit(d)
    ensures FormatLicensePlate("34 AB" + [d]) == "34 AB"
  {
    TwoLetterCleaned(d);
    TwoLetterSlices(d);
    TwoLetterLetters(d);
    assert "34" + (" " + "AB") == "34 AB";
  }

  /** ... and kept as the start of the digit group by the intended layout. */
  lemma TwoLetterDigitKept(d: char)
    requires IsDigit(d)
    ensures FormatPlateIntended("34 AB" + [d]) == "34 AB " + [d]
  {
    TwoLetterCleaned(d);
    TwoLetterParts(d);
    KeptJoin(d);
  }

  lemma TwoLetterSlices(d: char)
    ensures Slice("34AB" + [d], 0, 2) == "34"
    ensures Slice("34AB" + [d], 2, 5) == "AB" + [d]
  {
    CodeAndLetters(d);
  }

  lemma TwoLetterLetters(d: char)
    requires IsDigit(d)
    ensures Filter("AB" + [d], NonDigit) == "AB"
  {
    FilterConcat("AB", [d], NonDigit);
    assert Filter("AB", NonDigit) == "AB" by {
      assert NonDigit('A') && NonDigit('B');
    }
  }

  lemma TwoLetterParts(d: char)
    requires IsDigit(d)
    ensures PlateHead("34AB" + [d]) == "34"
    ensures PlateLetters("34AB" + [d]) == "AB"
    ensures PlateDigits("34AB" + [d]) == [d]
  {
    var c := "34AB" + [d];
    TwoLetterSlices(d);
    assert PlateTail(c) == "AB" + [d];
    assert NonDigit('A') && NonDigit('B');
    LetterRunOf("AB", [d], 3);
    assert ("AB" + [d])[..2] == "AB";
    SliceAfter("AB", [d], 4);
  }

  lemma KeptJoin(d: char)
    ensures "34" + Group("AB") + Group([d]) == "34 AB " + [d]
  {
    assert "34 AB " == "34" + " AB" + " ";
  }

  lemma TwoLetterCleaned(d: char)
    requires IsDigit(d)
    ensures CleanPlate("34 AB" + [d]) == "34AB" + [d]
  {
    var kept := "34AB" + [d];
    TwoLetterKept(d);
    SymbolsKept(kept);
    assert CleanPlate("34 AB" + [d]) == UpperAll(kept);
  }

  lemma TwoLetterKept(d: char)
    requires IsDigit(d)
    ensures Filter("34 AB" + [d], PlateChar) == "34AB" + [d]
  {
    CodeAndLetters(d);
    FilterConcat("34 ", "AB" + [d], PlateChar);
    CodeKept();
    SymbolsKept("AB" + [d]);
  }

  lemma CodeAndLetters(d: char)
    ensures "34 AB" + [d] == "34 " + ("AB" + [d])
    ensures "34AB" + [d] == "34" + ("AB" + [d])
  {
    assert "34 AB" == "34 " + "AB";
    assert "34AB" == "34" + "AB";
  }

  lemma CodeKept()
    ensures Filter("34 ", PlateChar) == "34"
  {
    assert "34 " == "34" + " ";
    FilterConcat("34", " ", PlateChar);
    SymbolsKept("34");
    assert !PlateChar(' ');
  }

  /** Digits and capitals pass the cleaner unchanged. */
  lemma SymbolsKept(s: string)
    requires AllSymbols(s)
    ensures Filter(s, PlateChar) == s
    ensures UpperAll(s) == s
  {
    forall i | 0 <= i < |s| ensures PlateChar(s[i]) && Upper(s[i]) == s[i] {
      PlateSymbolFixed(s[i]);
    }
  }

  /**
   * `initials`: the upper-cased first letters of the first two blank-separated
   * words of the user's name, or "K" when there is no word.
   */
  function Initials(name: Option<string>): (r: string)
    ensures 1 <= |r| <= 2
    ensures Words(OrEmpty(name)) == [] ==> r == "K"
    ensures Words(OrEmpty(name)) != [] ==> r[0] == Upper(Words(OrEmpty(name))[0][0])
    ensures |Words(OrEmpty(name))| == 1 ==> |r| == 1
    ensures |Words(OrEmpty(name))| >= 2 ==> |r| == 2 && r[1] == Upper(Words(OrEmpty(name))[1][0])
  {
    if OrEmpty(name) == "" then "K"
    else
      var parts := Words(OrEmpty(name));
      var first := if |parts| > 0 then [parts[0][0]] else "";
      var last := if |parts| > 1 then [parts[1][0]] else "";
      UpperAll(if first + last != "" then first + last else if first != "" then first else "K")
  }
}
