/**
 * Module references ("D201"): the prefix match `([A-Za-z]+)([0-9]+)` that
 * splits one into a letter prefix and a number (layout_cloner.py:73-74), the
 * `'%s%d'` formatting that rebuilds one (layout_cloner.py:89, 93), and the
 * reference of the i-th clone of a template module.
 */
module References {
  import opened Wrappers
  import opened Geometry

  datatype Ref = Ref(prefix: string, index: int)

  predicate IsLetter(c: char) { 'A' <= c <= 'Z' || 'a' <= c <= 'z' }

  predicate IsDigit(c: char) { '0' <= c <= '9' }

  /** Length of the longest run of letters at the start of s. */
  function LetterRun(s: string): (n: nat)
    ensures n <= |s|
  {
    if s == [] || !IsLetter(s[0]) then 0 else 1 + LetterRun(s[1..])
  }

  /** Length of the longest run of digits at the start of s. */
  function DigitRun(s: string): (n: nat)
    ensures n <= |s|
  {
    if s == [] || !IsDigit(s[0]) then 0 else 1 + DigitRun(s[1..])
  }

  /** LetterRun is the longest run: all letters, and the next character (if any) is not one. */
  lemma {:induction false} LetterRunIsLongest(s: string)
    ensures forall k :: 0 <= k < LetterRun(s) ==> IsLetter(s[k])
    ensures LetterRun(s) < |s| ==> !IsLetter(s[LetterRun(s)])
    decreases |s|
  {
    if s != [] && IsLetter(s[0]) {
      LetterRunIsLongest(s[1..]);
    }
  }

  /** DigitRun is the longest run: all digits, and the next character (if any) is not one. */
  lemma {:induction false} DigitRunIsLongest(s: string)
    ensures forall k :: 0 <= k < DigitRun(s) ==> IsDigit(s[k])
    ensures DigitRun(s) < |s| ==> !IsDigit(s[DigitRun(s)])
    decreases |s|
  {
    if s != [] && IsDigit(s[0]) {
      DigitRunIsLongest(s[1..]);
    }
  }

  function DigitValue(c: char): int { c as int - '0' as int }

  function DigitChar(d: int): char
    requires 0 <= d < 10
  {
    (d + '0' as int) as char
  }

  /** Python's `int()` of a string of decimal digits. */
  function DigitsValue(ds: string): int
  {
    if ds == [] then 0 else 10 * DigitsValue(ds[..|ds| - 1]) + DigitValue(ds[|ds| - 1])
  }

  /** Decimal digits of n, most significant first, without leading zeros. */
  function NatDigits(n: nat): string
  {
    if n < 10 then [DigitChar(n)] else NatDigits(n / 10) + [DigitChar(n % 10)]
  }

  /** `'%d' % n`: a minus sign before the digits of -n when n is negative. */
  function IntString(n: int): string
    decreases if n < 0 then 1 else 0
  {
    if n < 0 then "-" + IntString(-n) else NatDigits(n)
  }

  /** `'%s%d' % (prefix, n)`. */
  function FormatRef(prefix: string, n: int): string
  {
    prefix + IntString(n)
  }

  /**
   * `re.match('([A-Za-z]+)([0-9]+)', s).groups()` with the number converted by
   * `int`: the longest run of letters, then the longest run of digits right
   * after it; anything after the digits is ignored. None where the regular
   * expression does not match.
   */
  function ParseRef(s: string): Option<Ref>
  {
    var l := LetterRun(s);
    var d := DigitRun(s[l..]);
    if l == 0 || d == 0 then None else Some(Ref(s[..l], DigitsValue(s[l..l + d])))
  }

  predicate AllLetters(s: string) { forall k :: 0 <= k < |s| ==> IsLetter(s[k]) }

  predicate AllDigits(s: string) { forall k :: 0 <= k < |s| ==> IsDigit(s[k]) }

  /** A number as `'%d'` writes it: digits only, no leading zero unless it is "0". */
  predicate Canonical(ds: string)
  {
    |ds| >= 1 && AllDigits(ds) && (ds[0] == '0' ==> |ds| == 1)
  }

  /** The reference of template module r itself (layout_cloner.py:89). */
  function TemplateRef(r: Ref): string
  {
    FormatRef(r.prefix, r.index)
  }

  /** The number of the i-th clone of r: `index + i * modulo` (layout_cloner.py:92). */
  function CloneNumber(r: Ref, i: int, cfg: Config): int
  {
    r.index + Times(i, cfg.refModulo)
  }

  /** The reference of the i-th clone of r (layout_cloner.py:93). */
  function CloneRef(r: Ref, i: int, cfg: Config): string
  {
    FormatRef(r.prefix, CloneNumber(r, i, cfg))
  }

  lemma {:induction false} NatDigitsCanonical(n: nat)
    ensures Canonical(NatDigits(n))
    ensures DigitsValue(NatDigits(n)) == n
    decreases n
  {
    if n >= 10 {
      NatDigitsCanonical(n / 10);
      var ds := NatDigits(n);
      assert ds[..|ds| - 1] == NatDigits(n / 10);
    }
  }

  lemma {:induction false} LeadingNonZeroPositive(ds: string)
    requires |ds| >= 1 && AllDigits(ds) && ds[0] != '0'
    ensures DigitsValue(ds) > 0
    decreases |ds|
  {
    if |ds| > 1 {
      LeadingNonZeroPositive(ds[..|ds| - 1]);
    }
  }

  lemma {:induction false} DigitsValueNonNegative(ds: string)
    requires AllDigits(ds)
    ensures DigitsValue(ds) >= 0
    decreases |ds|
  {
    if ds != [] {
      DigitsValueNonNegative(ds[..|ds| - 1]);
    }
  }

  /** A canonical digit string is exactly what `'%d'` prints for its value. */
  lemma {:induction false} CanonicalDigitsRoundTrip(ds: string)
    requires Canonical(ds)
    ensures DigitsValue(ds) >= 0
    ensures NatDigits(DigitsValue(ds)) == ds
    decreases |ds|
  {
    DigitsValueNonNegative(ds);
    if |ds| > 1 {
      var init := ds[..|ds| - 1];
      LeadingNonZeroPositive(init);
      CanonicalDigitsRoundTrip(init);
      var v := DigitsValue(ds);
      assert v / 10 == DigitsValue(init) && v % 10 == DigitValue(ds[|ds| - 1]);
      assert ds == init + [ds[|ds| - 1]];
    }
  }

  lemma {:induction false} LetterRunOfLetters(a: string, b: string)
    requires AllLetters(a)
    requires b != [] ==> !IsLetter(b[0])
    ensures LetterRun(a + b) == |a|
    decreases |a|
  {
    if a != [] {
      assert (a + b)[1..] == a[1..] + b;
      LetterRunOfLetters(a[1..], b);
    } else {
      assert a + b == b;
    }
  }

  lemma {:induction false} DigitRunOfDigits(ds: string)
    requires AllDigits(ds)
    ensures DigitRun(ds) == |ds|
    decreases |ds|
  {
    if ds != [] {
      DigitRunOfDigits(ds[1..]);
    }
  }

  /** Letters followed by digits, and nothing else, parse to that prefix and number. */
  lemma ParseLettersDigits(prefix: string, ds: string)
    requires |prefix| >= 1 && AllLetters(prefix)
    requires |ds| >= 1 && AllDigits(ds)
    ensures ParseRef(prefix + ds) == Some(Ref(prefix, DigitsValue(ds)))
  {
    LettersDigitsSplit(prefix, ds);
    ParseSplits(prefix, ds);
  }

  /** Where the prefix match splits letters followed by digits. */
  lemma LettersDigitsSplit(prefix: string, ds: string)
    requires AllLetters(prefix)
    requires |ds| >= 1 && AllDigits(ds)
    ensures LetterRun(prefix + ds) == |prefix|
    ensures DigitRun((prefix + ds)[|prefix|..]) == |ds|
    ensures (prefix + ds)[..|prefix|] == prefix
    ensures (prefix + ds)[|prefix|..|prefix| + |ds|] == ds
  {
    var s, l := prefix + ds, |prefix|;
    LetterRunOfLetters(prefix, ds);
    DigitRunOfDigits(ds);
    assert s[l..] == ds;
    assert s[l..l + |ds|] == ds;
    assert s[..l] == prefix;
  }

  lemma ParseSplits(prefix: string, ds: string)
    requires LetterRun(prefix + ds) == |prefix| >= 1
    requires DigitRun((prefix + ds)[|prefix|..]) == |ds| >= 1
    requires (prefix + ds)[..|prefix|] == prefix
    requires (prefix + ds)[|prefix|..|prefix| + |ds|] == ds
    ensures ParseRef(prefix + ds) == Some(Ref(prefix, DigitsValue(ds)))
  {
  }

  /** Formatting then parsing gives the prefix and number back. */
  lemma ParseFormattedRef(prefix: string, n: int)
    requires |prefix| >= 1 && AllLetters(prefix)
    requires n >= 0
    ensures ParseRef(FormatRef(prefix, n)) == Some(Ref(prefix, n))
  {
    NatDigitsCanonical(n);
    ParseLettersDigits(prefix, NatDigits(n));
  }

  /**
   * A reference written as letters and a canonical number, with nothing after
   * it, parses to that prefix and number and is rebuilt exactly by `'%s%d'`.
   */
  lemma FormatParsedRef(prefix: string, ds: string)
    requires |prefix| >= 1 && AllLetters(prefix) && Canonical(ds)
    ensures ParseRef(prefix + ds) == Some(Ref(prefix, DigitsValue(ds)))
    ensures FormatRef(prefix, DigitsValue(ds)) == prefix + ds
  {
    CanonicalDigitsRoundTrip(ds);
    ParseFormattedRef(prefix, DigitsValue(ds));
  }

  /** Distinct non-negative numbers give distinct references. */
  lemma FormatRefInjective(prefix: string, a: int, b: int)
    requires |prefix| >= 1 && AllLetters(prefix)
    requires a >= 0 && b >= 0 && a != b
    ensures FormatRef(prefix, a) != FormatRef(prefix, b)
  {
    ParseFormattedRef(prefix, a);
    ParseFormattedRef(prefix, b);
  }

  /**
   * With a non-zero modulo the template and its clones have pairwise distinct
   * references (as long as the numbers stay non-negative).
   */
  lemma CloneRefsDistinct(r: Ref, i: int, j: int, cfg: Config)
    requires |r.prefix| >= 1 && AllLetters(r.prefix)
    requires cfg.refModulo != 0 && i != j
    requires CloneNumber(r, i, cfg) >= 0 && CloneNumber(r, j, cfg) >= 0
    ensures CloneRef(r, i, cfg) != CloneRef(r, j, cfg)
  {
    TimesIsProduct(i, cfg.refModulo);
    TimesIsProduct(j, cfg.refModulo);
    MulCancelNe(i, j, cfg.refModulo);
    FormatRefInjective(r.prefix, CloneNumber(r, i, cfg), CloneNumber(r, j, cfg));
  }

  /** With a positive modulo, no clone i >= 1 of a parsed reference carries the template's own reference. */
  lemma CloneRefIsNotTemplateRef(r: Ref, i: int, cfg: Config)
    requires |r.prefix| >= 1 && AllLetters(r.prefix) && r.index >= 0
    requires cfg.refModulo > 0 && i >= 1
    ensures CloneRef(r, i, cfg) != TemplateRef(r)
    ensures CloneNumber(r, i, cfg) > r.index
  {
    TimesIsProduct(i, cfg.refModulo);
    assert i * cfg.refModulo >= cfg.refModulo by {
      assert i * cfg.refModulo == (i - 1) * cfg.refModulo + cfg.refModulo;
      assert (i - 1) * cfg.refModulo >= 0;
    }
    FormatRefInjective(r.prefix, r.index, CloneNumber(r, i, cfg));
  }

  lemma MulCancelNe(i: int, j: int, m: int)
    requires m != 0 && i != j
    ensures i * m != j * m
  {
    if i * m == j * m {
      MulCancel(i, j, m);
    }
  }

  /** A parsed reference always has a non-empty letter prefix and a non-negative number. */
  lemma ParsedRefShape(s: string)
    requires ParseRef(s).Some?
    ensures |ParseRef(s).value.prefix| >= 1 && AllLetters(ParseRef(s).value.prefix)
    ensures ParseRef(s).value.index >= 0
  {
    var l := LetterRun(s);
    var d := DigitRun(s[l..]);
    LetterRunIsLongest(s);
    DigitRunIsLongest(s[l..]);
    var digits := s[l..l + d];
    assert forall k :: 0 <= k < |digits| ==> digits[k] == s[l..][k];
    DigitsValueNonNegative(digits);
  }

  /** "D0201" parses to D and 201, and the template is then looked up as "D201". */
  lemma LeadingZeroIsDropped()
    ensures ParseRef("D0201") == Some(Ref("D", 201))
    ensures TemplateRef(Ref("D", 201)) == "D201"
  {
    LetterRunOfLetters("D", "0201");
    assert "D" + "0201" == "D0201";
    assert "D0201"[1..] == "0201";
    DigitRunOfDigits("0201");
    assert "D0201"[1..5] == "0201";
    assert "0201"[..3] == "020" && "020"[..2] == "02" && "02"[..1] == "0" && "0"[..0] == [];
    assert DigitsValue("0201") == 201;
    assert NatDigits(201) == "201";
  }

  /** The template D201 with modulo 100 has its clones D301, D401 and D501. */
  lemma HundredModuloClones(cfg: Config)
    requires cfg.refModulo == 100
    ensures CloneRef(Ref("D", 201), 1, cfg) == "D301"
    ensures CloneRef(Ref("D", 201), 2, cfg) == "D401"
    ensures CloneRef(Ref("D", 201), 3, cfg) == "D501"
  {
    assert NatDigits(301) == "301";
    assert NatDigits(401) == "401";
    assert NatDigits(501) == "501";
  }
}
