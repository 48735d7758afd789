/**
 * String primitives of the client: JavaScript's whitespace class, the two
 * case mappings it uses, `normalizeText` (app/page.tsx:132-133), `split(" ")`
 * and the decimal rendering of ids inside placeholders.
 */
module Text {
  import opened Common

  /** JavaScript's `\s` class, which is also the set `String.prototype.trim` strips. */
  predicate IsSpace(c: char) {
    c == ' ' || ('\t' <= c <= '\r') || ('\U{00A0}' <= c && IsWideSpace(c))
  }

  /** The whitespace characters of `\s` outside ASCII. */
  predicate IsWideSpace(c: char) {
    c == '\U{00A0}' || c == '\U{1680}' || ('\U{2000}' <= c <= '\U{200A}') || ('\U{2028}' <= c <= '\U{2029}')
    || c == '\U{202F}' || c == '\U{205F}' || c == '\U{3000}' || c == '\U{FEFF}'
  }

  predicate IsDigit(c: char) {
    '0' <= c <= '9'
  }

  /**
   * `toLocaleLowerCase("tr-TR")` on one character: ASCII and Latin-1 capitals,
   * the Turkish dotted and dotless I, and Ğ and Ş.
   */
  function Lower(c: char): char
  {
    if c == 'I' then 'ı'
    else if 'A' <= c <= 'Z' then (c as int + 32) as char
    else if 'À' <= c <= 'Þ' && c != '×' then (c as int + 32) as char
    else if c == 'İ' then 'i'
    else if c == 'Ğ' then 'ğ'
    else if c == 'Ş' then 'ş'
    else c
  }

  /** Locale-independent `toUpperCase` on one character, over the same alphabet. */
  function Upper(c: char): char
  {
    if 'a' <= c <= 'z' then (c as int - 32) as char
    else if 'à' <= c <= 'þ' && c != '÷' then (c as int - 32) as char
    else if c == 'ı' then 'I'
    else if c == 'ğ' then 'Ğ'
    else if c == 'ş' then 'Ş'
    else c
  }

  /** The characters `Lower` changes: the capitals of its alphabet. */
  predicate HasUpper(c: char) {
    c == 'I' || 'A' <= c <= 'Z' || ('À' <= c <= 'Þ' && c != '×') || c == 'İ' || c == 'Ğ' || c == 'Ş'
  }

  /** A character is its own lower-case form exactly when it is no capital. */
  lemma LowerFixedIff(c: char)
    ensures Lower(c) == c <==> !HasUpper(c)
  {}

  /** Lower-casing leaves no capital behind. */
  lemma LowerHasNoUpper(c: char)
    ensures !HasUpper(Lower(c))
  {}

  lemma LowerIdempotent(c: char)
    ensures Lower(Lower(c)) == Lower(c)
  {
    LowerHasNoUpper(c);
    LowerFixedIff(Lower(c));
  }

  /** Case mapping never turns a letter into whitespace or a digit, or back. */
  lemma CaseKeepsClass(c: char)
    ensures IsSpace(Lower(c)) <==> IsSpace(c)
    ensures IsSpace(Upper(c)) <==> IsSpace(c)
    ensures IsDigit(Lower(c)) <==> IsDigit(c)
    ensures IsDigit(Upper(c)) <==> IsDigit(c)
  {}

  lemma UpperIdempotent(c: char)
    ensures Upper(Upper(c)) == Upper(c)
  {}

  function LowerAll(s: string): (r: string)
    ensures |r| == |s| && forall i :: 0 <= i < |s| ==> r[i] == Lower(s[i])
  {
    seq(|s|, i requires 0 <= i < |s| => Lower(s[i]))
  }

  function UpperAll(s: string): (r: string)
    ensures |r| == |s| && forall i :: 0 <= i < |s| ==> r[i] == Upper(s[i])
  {
    seq(|s|, i requires 0 <= i < |s| => Upper(s[i]))
  }

  predicate StartsWith(s: string, prefix: string) {
    |prefix| <= |s| && s[..|prefix|] == prefix
  }

  /** `trimStart`: the suffix left after dropping leading whitespace. */
  function TrimStart(s: string): (r: string)
    ensures |r| <= |s| && r == s[|s| - |r|..]
    ensures r != [] ==> !IsSpace(r[0])
  {
    if s != [] && IsSpace(s[0]) then TrimStart(s[1..]) else s
  }

  /** `trimEnd`: the prefix left after dropping trailing whitespace. */
  function TrimEnd(s: string): (r: string)
    ensures |r| <= |s| && r == s[..|r|]
    ensures r != [] ==> !IsSpace(r[|r| - 1])
  {
    if s != [] && IsSpace(s[|s| - 1]) then TrimEnd(s[..|s| - 1]) else s
  }

  function Trim(s: string): (r: string)
    ensures r != [] ==> !IsSpace(r[0]) && !IsSpace(r[|r| - 1])
  {
    TrimEnd(TrimStart(s))
  }

  /** Every whitespace character of `s` is the plain blank. */
  predicate SpacesAreBlank(s: string) {
    forall i :: 0 <= i < |s| ==> IsSpace(s[i]) ==> s[i] == ' '
  }

  /** No two adjacent whitespace characters. */
  predicate NoDoubleSpace(s: string) {
    forall i :: 0 <= i < |s| - 1 ==> !BlankPair(s, i)
  }

  /** Positions `i` and `i + 1` of `s` are both whitespace. */
  predicate BlankPair(s: string, i: int)
    requires 0 <= i < |s| - 1
  {
    IsSpace(s[i]) && IsSpace(s[i + 1])
  }

  /** No character of `s` is a capital, so each is its own lower-case form. */
  predicate AllLower(s: string) {
    forall i :: 0 <= i < |s| ==> !HasUpper(s[i])
  }

  /** `replace(/\s+/g, " ")`: every maximal run of whitespace becomes one blank. */
  function Collapse(s: string): (r: string)
    ensures |r| == 0 <==> |s| == 0
    ensures |s| > 0 ==> (IsSpace(r[0]) <==> IsSpace(s[0]))
    ensures SpacesAreBlank(r)
    decreases |s|
  {
    if s == [] then []
    else if IsSpace(s[0]) then [' '] + Collapse(TrimStart(s[1..]))
    else [s[0]] + Collapse(s[1..])
  }

  lemma {:induction false} CollapseNoDoubleSpace(s: string)
    ensures NoDoubleSpace(Collapse(s))
    decreases |s|
  {
    if s != [] {
      var t := if IsSpace(s[0]) then TrimStart(s[1..]) else s[1..];
      CollapseNoDoubleSpace(t);
      var c := Collapse(t);
      var r := Collapse(s);
      assert r == [if IsSpace(s[0]) then ' ' else s[0]] + c;
      assert IsSpace(r[0]) ==> c == [] || !IsSpace(c[0]);
      forall i | 0 <= i < |r| - 1 ensures !BlankPair(r, i) {
        if i > 0 {
          assert !BlankPair(c, i - 1);
          assert r[i] == c[i - 1] && r[i + 1] == c[i];
        }
      }
    }
  }

  /** The shape `normalizeText` produces. */
  predicate IsNormalized(s: string) {
    && AllLower(s)
    && SpacesAreBlank(s)
    && NoDoubleSpace(s)
    && (|s| > 0 ==> !IsSpace(s[0]) && !IsSpace(s[|s| - 1]))
  }

  /**
   * `normalizeText(val)`: `(val || "")`, lower-cased for Turkish, every whitespace
   * run collapsed to one blank, then trimmed.
   */
  function Normalize(val: Option<string>): (r: string)
    ensures val.None? ==> r == ""
  {
    TrimEnd(TrimStart(Collapse(LowerAll(OrEmpty(val)))))
  }

  /**
   * What `normalizeText` produces: lower-case characters only, the blank as the
   * only whitespace, no run of two, nothing leading or trailing.
   */
  lemma NormalizeShape(val: Option<string>)
    ensures IsNormalized(Normalize(val))
  {
    var lowered := LowerAll(OrEmpty(val));
    LowerAllIsLower(OrEmpty(val));
    CollapseKeepsLower(lowered);
    CollapseNoDoubleSpace(lowered);
    TrimmedIsNormalized(Collapse(lowered));
  }

  lemma LowerAllIsLower(s: string)
    ensures AllLower(LowerAll(s))
  {
    forall i | 0 <= i < |s| ensures !HasUpper(LowerAll(s)[i]) {
      LowerHasNoUpper(s[i]);
    }
  }

  lemma {:induction false} CollapseKeepsLower(s: string)
    requires AllLower(s)
    ensures AllLower(Collapse(s))
    decreases |s|
  {
    if s != [] {
      var t := if IsSpace(s[0]) then TrimStart(s[1..]) else s[1..];
      assert t == s[|s| - |t|..];
      assert AllLower(t) by {
        forall i | 0 <= i < |t| ensures !HasUpper(t[i]) {
          assert t[i] == s[|s| - |t| + i];
        }
      }
      CollapseKeepsLower(t);
      var c := Collapse(t);
      var r := Collapse(s);
      assert r == [if IsSpace(s[0]) then ' ' else s[0]] + c;
      forall i | 0 <= i < |r| ensures !HasUpper(r[i]) {
        if i > 0 {
          assert r[i] == c[i - 1];
        }
      }
    }
  }

  lemma TrimmedIsNormalized(s: string)
    requires AllLower(s) && SpacesAreBlank(s) && NoDoubleSpace(s)
    ensures IsNormalized(TrimEnd(TrimStart(s)))
  {
    var front := TrimStart(s);
    var r := TrimEnd(front);
    var a := |s| - |front|;
    assert forall i :: 0 <= i < |r| ==> r[i] == front[i] == s[a + i];
    InnerKeepsShape(s, r, a);
    TrimmedEnds(s);
  }

  /** Trimming both ends leaves no whitespace at either end. */
  lemma TrimmedEnds(s: string)
    ensures |TrimEnd(TrimStart(s))| > 0 ==>
      !IsSpace(TrimEnd(TrimStart(s))[0]) && !IsSpace(TrimEnd(TrimStart(s))[|TrimEnd(TrimStart(s))| - 1])
  {
    var front := TrimStart(s);
    var r := TrimEnd(front);
    if |r| > 0 {
      assert r[0] == front[0];
    }
  }

  /** A run of consecutive characters of `s` keeps its case and spacing facts. */
  lemma InnerKeepsShape(s: string, r: string, a: nat)
    requires a + |r| <= |s|
    requires forall i :: 0 <= i < |r| ==> r[i] == s[a + i]
    requires AllLower(s) && SpacesAreBlank(s) && NoDoubleSpace(s)
    ensures AllLower(r) && SpacesAreBlank(r) && NoDoubleSpace(r)
  {
    forall i | 0 <= i < |r| - 1 ensures !BlankPair(r, i) {
      assert !BlankPair(s, a + i);
    }
  }

  lemma {:induction false} CollapseOfCollapsed(s: string)
    requires SpacesAreBlank(s) && NoDoubleSpace(s)
    ensures Collapse(s) == s
    decreases |s|
  {
    if s != [] {
      var tail := s[1..];
      assert SpacesAreBlank(tail) && NoDoubleSpace(tail) by {
        forall i | 0 <= i < |tail| - 1 ensures !BlankPair(tail, i) {
          assert !BlankPair(s, i + 1);
          assert tail[i] == s[i + 1] && tail[i + 1] == s[i + 2];
        }
      }
      if IsSpace(s[0]) {
        assert tail == [] || !IsSpace(tail[0]) by {
          if tail != [] { assert !BlankPair(s, 0); assert tail[0] == s[1]; }
        }
        assert TrimStart(tail) == tail;
      }
      CollapseOfCollapsed(tail);
    }
  }

  /** `normalizeText` is idempotent. */
  lemma NormalizeIdempotent(val: Option<string>)
    ensures Normalize(Some(Normalize(val))) == Normalize(val)
  {
    var n := Normalize(val);
    NormalizeShape(val);
    assert LowerAll(n) == n by {
      forall i | 0 <= i < |n| ensures LowerAll(n)[i] == n[i] {
        LowerFixedIff(n[i]);
      }
    }
    CollapseOfCollapsed(n);
    assert TrimStart(n) == n;
    assert TrimEnd(n) == n;
  }

  /** Case and surrounding blanks do not matter to the catalog match. */
  lemma NormalizeExample()
    ensures Normalize(Some("Çankaya ")) == "çankaya"
    ensures Normalize(Some("ÇANKAYA")) == "çankaya"
  {
    NormalizeTrailingBlank();
    NormalizeCapitals();
  }

  lemma NormalizeTrailingBlank()
    ensures Normalize(Some("Çankaya ")) == "çankaya"
  {
    LowerSample();
    CollapseSample();
    assert TrimStart("çankaya ") == "çankaya ";
    assert TrimEnd("çankaya ") == "çankaya" by {
      assert "çankaya "[..7] == "çankaya";
    }
  }

  lemma NormalizeCapitals()
    ensures Normalize(Some("ÇANKAYA")) == "çankaya"
  {
    LowerCapitals();
    CollapseWord();
    assert TrimStart("çankaya") == "çankaya";
    assert TrimEnd("çankaya") == "çankaya";
  }

  lemma LowerSample()
    ensures LowerAll("Çankaya ") == "çankaya "
  {}

  lemma LowerCapitals()
    ensures LowerAll("ÇANKAYA") == "çankaya"
  {}

  lemma CollapseSample()
    ensures Collapse("çankaya ") == "çankaya "
  {
    var s := "çankaya ";
    assert SpacesAreBlank(s);
    assert NoDoubleSpace(s) by {
      forall i | 0 <= i < |s| - 1 ensures !BlankPair(s, i) { }
    }
    CollapseOfCollapsed(s);
  }

  lemma CollapseWord()
    ensures Collapse("çankaya") == "çankaya"
  {
    var s := "çankaya";
    assert SpacesAreBlank(s);
    assert NoDoubleSpace(s) by {
      forall i | 0 <= i < |s| - 1 ensures !BlankPair(s, i) { }
    }
    CollapseOfCollapsed(s);
  }

  /** `s.split(sep)`: the pieces between occurrences of `sep`, empty ones included. */
  function Split(s: string, sep: char): (parts: seq<string>)
    ensures |parts| >= 1
    ensures forall i :: 0 <= i < |parts| ==> sep !in parts[i]
  {
    if s == [] then [[]]
    else
      var rest := Split(s[1..], sep);
      if s[0] == sep then [[]] + rest
      else [[s[0]] + rest[0]] + rest[1..]
  }

  /** `parts.join(sep)`. */
  function Join(parts: seq<string>, sep: char): string
    requires |parts| >= 1
  {
    if |parts| == 1 then parts[0] else parts[0] + [sep] + Join(parts[1..], sep)
  }

  lemma {:induction false} JoinSplit(s: string, sep: char)
    ensures Join(Split(s, sep), sep) == s
  {
    if s != [] {
      JoinSplit(s[1..], sep);
      var rest := Split(s[1..], sep);
      if s[0] != sep {
        if |rest| == 1 {
          assert Join(Split(s, sep), sep) == [s[0]] + rest[0];
        } else {
          assert Split(s, sep)[1..] == rest[1..];
          assert Join(Split(s, sep), sep) == [s[0]] + rest[0] + [sep] + Join(rest[1..], sep);
        }
      }
    }
  }

  lemma {:induction false} SplitJoin(parts: seq<string>, sep: char)
    requires |parts| >= 1
    requires forall i :: 0 <= i < |parts| ==> sep !in parts[i]
    ensures Split(Join(parts, sep), sep) == parts
    decreases |parts|, |parts[0]|
  {
    if parts[0] == [] {
      if |parts| > 1 {
        SplitJoin(parts[1..], sep);
        assert Join(parts, sep) == [sep] + Join(parts[1..], sep);
        assert Join(parts, sep)[1..] == Join(parts[1..], sep);
      }
    } else {
      var shorter := [parts[0][1..]] + parts[1..];
      assert sep !in shorter[0];
      assert forall i :: 0 < i < |shorter| ==> shorter[i] == parts[i];
      SplitJoin(shorter, sep);
      JoinShorter(parts, sep);
      var joined := Join(parts, sep);
      assert joined[0] == parts[0][0] && joined[1..] == Join(shorter, sep);
      assert [parts[0][0]] + shorter[0] == parts[0];
      assert shorter[1..] == parts[1..];
      assert parts == [parts[0]] + parts[1..];
    }
  }

  /** Joining parts whose first is non-empty starts with that part's first character. */
  lemma JoinShorter(parts: seq<string>, sep: char)
    requires |parts| >= 1 && parts[0] != []
    ensures Join(parts, sep) == [parts[0][0]] + Join([parts[0][1..]] + parts[1..], sep)
  {
    var shorter := [parts[0][1..]] + parts[1..];
    assert parts[0] == [parts[0][0]] + shorter[0];
    if |parts| > 1 {
      assert shorter[1..] == parts[1..];
    }
  }

  /** `parts.filter(Boolean)` over strings. */
  function NonEmptyParts(parts: seq<string>): (r: seq<string>)
    ensures |r| <= |parts|
    ensures forall i :: 0 <= i < |r| ==> r[i] != [] && r[i] in parts
    ensures (forall i :: 0 <= i < |parts| ==> parts[i] == []) <==> r == []
  {
    if parts == [] then []
    else if parts[0] == [] then NonEmptyParts(parts[1..])
    else [parts[0]] + NonEmptyParts(parts[1..])
  }

  /** `s.split(" ").filter(Boolean)`: the blank-separated words of `s`. */
  function Words(s: string): (r: seq<string>)
    ensures forall i :: 0 <= i < |r| ==> r[i] != [] && ' ' !in r[i]
  {
    NonEmptyParts(Split(s, ' '))
  }

  function DigitChar(d: nat): (c: char)
    requires d < 10
    ensures IsDigit(c)
  {
    ('0' as int + d) as char
  }

  /** Decimal digits of `n`, as `String(n)` writes them. */
  function NatToString(n: nat): (r: string)
    ensures |r| >= 1
    ensures forall i :: 0 <= i < |r| ==> IsDigit(r[i])
    ensures |r| > 1 ==> r[0] != '0'
  {
    if n < 10 then [DigitChar(n)] else NatToString(n / 10) + [DigitChar(n % 10)]
  }

  /** `String(n)` for an integer id. */
  function IntToString(n: int): (r: string)
    ensures |r| >= 1
  {
    if n < 0 then "-" + NatToString(-n) else NatToString(n)
  }

  function DigitValue(c: char): nat
    requires IsDigit(c)
  {
    c as int - '0' as int
  }

  /** Reading back a string of decimal digits. */
  function DigitsValue(s: string): nat
    requires forall i :: 0 <= i < |s| ==> IsDigit(s[i])
  {
    if s == [] then 0 else 10 * DigitsValue(s[..|s| - 1]) + DigitValue(s[|s| - 1])
  }

  lemma {:induction false} NatToStringRoundTrip(n: nat)
    ensures DigitsValue(NatToString(n)) == n
  {
    if n >= 10 {
      NatToStringRoundTrip(n / 10);
      var s := NatToString(n);
      assert s[..|s| - 1] == NatToString(n / 10);
    }
  }

  /** A rendered id starts with `-` exactly when it is negative. */
  lemma IntToStringSign(n: int)
    ensures IntToString(n)[0] == '-' <==> n < 0
  {
    if n >= 0 {
      assert IsDigit(NatToString(n)[0]);
    }
  }

  /** Distinct naturals have distinct decimal digits. */
  lemma NatToStringInjective(a: nat, b: nat)
    requires NatToString(a) == NatToString(b)
    ensures a == b
  {
    NatToStringRoundTrip(a);
    NatToStringRoundTrip(b);
  }

  /** Distinct ids render differently, so a placeholder label names one id. */
  lemma IntToStringInjective(m: int, n: int)
    requires IntToString(m) == IntToString(n)
    ensures m == n
  {
    IntToStringSign(m);
    IntToStringSign(n);
    if m < 0 {
      var sm := IntToString(m);
      var sn := IntToString(n);
      assert sm[1..] == NatToString(-m) && sn[1..] == NatToString(-n);
      NatToStringInjective(-m, -n);
    } else {
      NatToStringInjective(m, n);
    }
  }
}
