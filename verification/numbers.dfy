/** Numbers as text: what `std::stoul` accepts, and what `std::to_string` prints. */
module NumberText {
  import opened Types
  import opened Division

  predicate IsSpace(c: char) { c == ' ' || '\t' <= c <= '\r' }

  /** The value of a digit of some base up to 16. */
  function DigitValue(c: char): (d: Option<nat>)
    ensures d.Some? ==> d.value < 16
  {
    if '0' <= c <= '9' then Some((c - '0') as nat)
    else if 'a' <= c <= 'f' then Some((c - 'a') as nat + 10)
    else if 'A' <= c <= 'F' then Some((c - 'A') as nat + 10)
    else None
  }

  predicate IsDigit(c: char, base: nat) {
    DigitValue(c).Some? && DigitValue(c).value < base
  }

  function SkipSpaces(s: string): string {
    if s != "" && IsSpace(s[0]) then SkipSpaces(s[1..]) else s
  }

  function LeadingDigits(s: string, base: nat): (ds: string)
    ensures forall k | 0 <= k < |ds| :: IsDigit(ds[k], base)
  {
    if s != "" && IsDigit(s[0], base) then [s[0]] + LeadingDigits(s[1..], base) else ""
  }

  function DigitOr0(c: char): nat {
    match DigitValue(c)
    case Some(d) => d
    case None => 0
  }

  function Value(ds: string, base: nat): nat {
    if ds == "" then 0 else Value(ds[..|ds| - 1], base) * base + DigitOr0(ds[|ds| - 1])
  }

  function StripSign(s: string): string {
    if s != "" && (s[0] == '-' || s[0] == '+') then s[1..] else s
  }

  function StripPrefix(s: string, base: nat): string {
    if base == 16 && |s| > 2 && s[0] == '0' && (s[1] == 'x' || s[1] == 'X') && IsDigit(s[2], 16) then s[2..] else s
  }

  /**
   * Leading white space, an optional sign, for base 16 an optional "0x", and as many digits as
   * there are; what follows is ignored, and a negated number wraps around.
   */
  function Stoul(s: string, base: nat): (r: Result<nat>)
    ensures r.Ok? ==> r.value < WORD_LIMIT
  {
    var t := SkipSpaces(s);
    var ds := LeadingDigits(StripPrefix(StripSign(t), base), base);
    if ds == "" then Err(InvalidArgument)
    else if Value(ds, base) >= WORD_LIMIT then Err(OutOfRange)
    else if t[..1] == "-" && Value(ds, base) > 0 then Ok(WORD_LIMIT - Value(ds, base))
    else Ok(Value(ds, base))
  }

  /** A text that consists of digits is read as the number it denotes, if that fits. */
  lemma StoulOfDigits(s: string, base: nat)
    requires s != "" && forall k | 0 <= k < |s| :: IsDigit(s[k], base)
    requires base == 10 || |s| <= 2
    ensures Stoul(s, base) == if Value(s, base) < WORD_LIMIT then Ok(Value(s, base)) else Err(OutOfRange)
  {
    assert IsDigit(s[0], base);
    assert SkipSpaces(s) == s && StripSign(s) == s && StripPrefix(s, base) == s;
    AllDigitsLead(s, "", base);
    assert s + "" == s;
  }

  function ToString(n: nat): (s: string)
    ensures s != "" && forall k | 0 <= k < |s| :: '0' <= s[k] <= '9'
  {
    (if n < 10 then "" else ToString(n / 10)) + ['0' + (n % 10) as char]
  }

  lemma {:induction false} AllDigitsLead(ds: string, rest: string, base: nat)
    requires forall k | 0 <= k < |ds| :: IsDigit(ds[k], base)
    requires rest != "" ==> !IsDigit(rest[0], base)
    ensures LeadingDigits(ds + rest, base) == ds
    decreases |ds|
  {
    if ds == "" {
      assert ds + rest == rest;
    } else {
      assert (ds + rest)[1..] == ds[1..] + rest;
      AllDigitsLead(ds[1..], rest, base);
    }
  }

  lemma {:induction false} ValueOfToString(n: nat)
    ensures forall k | 0 <= k < |ToString(n)| :: IsDigit(ToString(n)[k], 10)
    ensures Value(ToString(n), 10) == n
  {
    var s := ToString(n);
    assert DigitValue(s[|s| - 1]) == Some(n % 10);
    if n >= 10 {
      ValueOfToString(n / 10);
      assert s[..|s| - 1] == ToString(n / 10);
    } else {
      assert s[..|s| - 1] == "";
    }
  }

  function Ten(k: nat): (p: nat)
    ensures p > 0
  {
    if k == 0 then 1 else 10 * Ten(k - 1)
  }

  /** Decimal digits with the highest first: the k-th from the right is the one for 10 to the k-th. */
  lemma {:induction false} ToStringAt(n: nat, k: nat)
    requires k < |ToString(n)|
    ensures ToString(n)[|ToString(n)| - 1 - k] == '0' + ((n / Ten(k)) % 10) as char
    decreases k
  {
    hide ToString, Ten;
    ToStringEnds(n);
    if k == 0 {
      TenIsOne(n);
    } else {
      ToStringAt(n / 10, k - 1);
      TenStep(n, k);
    }
  }

  lemma ToStringEnds(n: nat)
    ensures ToString(n) == (if n < 10 then "" else ToString(n / 10)) + ['0' + (n % 10) as char]
  {
  }

  lemma TenIsOne(n: nat)
    ensures n / Ten(0) == n
  {
  }

  lemma TenStep(n: nat, k: nat)
    requires k > 0
    ensures n / 10 / Ten(k - 1) == n / Ten(k)
  {
    DivideTwice(n, 10, Ten(k - 1));
  }

  lemma {:induction false} SpacesAreSkipped(spaces: string, s: string)
    requires (forall k | 0 <= k < |spaces| :: IsSpace(spaces[k])) && (s != "" ==> !IsSpace(s[0]))
    ensures SkipSpaces(spaces + s) == s
    decreases |spaces|
  {
    if spaces == "" {
      assert spaces + s == s;
    } else {
      assert (spaces + s)[1..] == spaces[1..] + s;
      SpacesAreSkipped(spaces[1..], s);
    }
  }

  /**
   * White space in front and anything behind the digits does not matter, nor does a '+'; with a '-' the
   * number is subtracted from 2^64. Only the size of the digits' number decides whether it fits.
   */
  lemma StoulOfText(spaces: string, sign: string, ds: string, rest: string)
    requires forall k | 0 <= k < |spaces| :: spaces[k] == ' ' || '\t' <= spaces[k] <= '\r'
    requires sign == "" || sign == "+" || sign == "-"
    requires ds != "" && forall k | 0 <= k < |ds| :: IsDigit(ds[k], 10)
    requires rest != "" ==> !IsDigit(rest[0], 10)
    ensures Stoul(spaces + (sign + (ds + rest)), 10) ==
            if Value(ds, 10) >= WORD_LIMIT then Err(OutOfRange)
            else if sign == "-" && Value(ds, 10) > 0 then Ok(WORD_LIMIT - Value(ds, 10))
            else Ok(Value(ds, 10))
  {
    hide Value, SkipSpaces, LeadingDigits, StripSign, IsDigit;
    var t := sign + (ds + rest);
    SignIsStripped(sign, ds, rest);
    SpacesAreSkipped(spaces, t);
    AllDigitsLead(ds, rest, 10);
  }

  lemma SignIsStripped(sign: string, ds: string, rest: string)
    requires sign == "" || sign == "+" || sign == "-"
    requires ds != "" && IsDigit(ds[0], 10)
    ensures var t := sign + (ds + rest);
            t != "" && !IsSpace(t[0]) && StripSign(t) == ds + rest && (t[..1] == "-" <==> sign == "-")
  {
    var t := sign + (ds + rest);
    assert t[0] == if sign == "" then ds[0] else sign[0];
    assert t[..1] == [t[0]];
    if sign == "" { assert t == ds + rest; } else { assert t[1..] == ds + rest; }
  }

  /** Reading back a printed 64-bit number gives that number. */
  lemma StoulOfToString(n: nat)
    requires n < WORD_LIMIT
    ensures Stoul(ToString(n), 10) == Ok(n)
  {
    ValueOfToString(n);
    StoulOfDigits(ToString(n), 10);
  }

  /** A digit string without a leading zero is how its value is printed. */
  predicate Canonical(s: string) {
    s != "" && (forall k | 0 <= k < |s| :: '0' <= s[k] <= '9') && (s[0] == '0' ==> |s| == 1)
  }

  lemma PrintAppended(v: nat, n: nat, c: char)
    requires '0' <= c <= '9' && n == v * 10 + (c - '0') as nat
    ensures ToString(n) == (if v == 0 then "" else ToString(v)) + [c]
  {
    assert n / 10 == v && n % 10 == (c - '0') as nat;
    assert '0' + (n % 10) as char == c;
  }

  lemma ValueAppended(front: string, c: char)
    requires '0' <= c <= '9'
    ensures Value(front + [c], 10) == Value(front, 10) * 10 + (c - '0') as nat
  {
    assert (front + [c])[..|front|] == front;
  }

  lemma {:induction false} ToStringOfValue(s: string)
    requires Canonical(s)
    ensures ToString(Value(s, 10)) == s
    ensures s != "0" ==> Value(s, 10) > 0
    decreases |s|
  {
    var front, last := s[..|s| - 1], s[|s| - 1];
    var v, n := Value(front, 10), Value(s, 10);
    assert s == front + [last];
    ValueAppended(front, last);
    PrintAppended(v, n, last);
    if front == "" {
      assert v == 0 && ToString(n) == [last];
    } else {
      assert front[0] == s[0] && front != "0";
      ToStringOfValue(front);
      assert v > 0 && ToString(n) == front + [last];
    }
  }

  /** Printing the number read from a canonical digit string gives back that string. */
  lemma ToStringOfStoul(s: string)
    requires Canonical(s) && Stoul(s, 10).Ok?
    ensures ToString(Stoul(s, 10).value) == s
  {
    ToStringOfValue(s);
    StoulOfDigits(s, 10);
  }
}
