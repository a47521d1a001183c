// The few string functions of JavaScript that the handlers rely on.
module Text {
  import opened Wrappers

  /** What a truthiness test says of an optional text. */
  predicate Given(s: Option<string>) { s.Some? && s.value != "" }

  /** The characters `trim` removes and `\s` matches. */
  predicate IsSpace(c: char) {
    var n := c as int;
    9 <= n <= 13 || n == 32 || n == 0xA0 || n == 0x1680 || 0x2000 <= n <= 0x200A || n == 0x2028 || n == 0x2029
    || n == 0x202F || n == 0x205F || n == 0x3000 || n == 0xFEFF
  }

  /** `s.trim()` is empty. */
  predicate Blank(s: string) { forall i | 0 <= i < |s| :: IsSpace(s[i]) }

  function TrimEnd(s: string): string {
    if s != [] && IsSpace(s[|s| - 1]) then TrimEnd(s[..|s| - 1]) else s
  }

  function TrimStart(s: string): string {
    if s != [] && IsSpace(s[0]) then TrimStart(s[1..]) else s
  }

  function Trim(s: string): string { TrimStart(TrimEnd(s)) }

  /** A text is blank when it has nothing but white space, that is when trimming leaves nothing. */
  lemma {:induction false} BlankExactly(s: string)
    ensures Blank(s) <==> forall c | c in s :: IsSpace(c)
    ensures Blank(s) <==> Trim(s) == []
  {
    hide IsSpace, TrimStart, TrimEnd;
    if Blank(s) {
      BlankEnd(s);
      BlankStart([]);
    } else {
      var head, tail := TrimExactly(s);
    }
  }

  lemma {:induction false} BlankEnd(s: string)
    requires Blank(s)
    ensures TrimEnd(s) == []
  {
    hide IsSpace;
    if s != [] {
      BlankEnd(s[..|s| - 1]);
    }
  }

  lemma {:induction false} BlankStart(s: string)
    requires s == []
    ensures TrimStart(s) == []
  {
  }

  /** The characters that the ECMAScript white space and line terminators are. */
  lemma {:induction false} SpaceExactly(c: char)
    ensures IsSpace(c) <==>
            c in "\t\n\U{000B}\U{000C}\r \U{00A0}\U{1680}"
            || c in "\U{2000}\U{2001}\U{2002}\U{2003}\U{2004}\U{2005}\U{2006}\U{2007}\U{2008}\U{2009}\U{200A}"
            || c in "\U{2028}\U{2029}\U{202F}\U{205F}\U{3000}\U{FEFF}"
  {
    SpaceLow(c);
    SpaceMiddle(c);
    SpaceHigh(c);
  }

  lemma {:induction false} SpaceLow(c: char)
    ensures c in "\t\n\U{000B}\U{000C}\r \U{00A0}\U{1680}" <==>
            9 <= c as int <= 13 || c as int == 32 || c as int == 0xA0 || c as int == 0x1680
  {
    var s := "\t\n\U{000B}\U{000C}\r \U{00A0}\U{1680}";
    assert s[0] == 9 as char && s[1] == 10 as char && s[2] == 11 as char && s[3] == 12 as char;
    assert s[4] == 13 as char && s[5] == 32 as char && s[6] == 0xA0 as char && s[7] == 0x1680 as char;
  }

  lemma {:induction false} SpaceMiddle(c: char)
    ensures c in "\U{2000}\U{2001}\U{2002}\U{2003}\U{2004}\U{2005}\U{2006}\U{2007}\U{2008}\U{2009}\U{200A}" <==>
            0x2000 <= c as int <= 0x200A
  {
    var s := "\U{2000}\U{2001}\U{2002}\U{2003}\U{2004}\U{2005}\U{2006}\U{2007}\U{2008}\U{2009}\U{200A}";
    assert forall i | 0 <= i < 11 :: s[i] == (0x2000 + i) as char;
    if 0x2000 <= c as int <= 0x200A {
      assert c == s[c as int - 0x2000];
    }
  }

  lemma {:induction false} SpaceHigh(c: char)
    ensures c in "\U{2028}\U{2029}\U{202F}\U{205F}\U{3000}\U{FEFF}" <==>
            c as int == 0x2028 || c as int == 0x2029 || c as int == 0x202F || c as int == 0x205F || c as int == 0x3000 || c as int == 0xFEFF
  {
    var s := "\U{2028}\U{2029}\U{202F}\U{205F}\U{3000}\U{FEFF}";
    assert s[0] == 0x2028 as char && s[1] == 0x2029 as char && s[2] == 0x202F as char;
    assert s[3] == 0x205F as char && s[4] == 0x3000 as char && s[5] == 0xFEFF as char;
  }

  /** Trimming takes white space off both ends and nothing else. */
  lemma {:induction false} TrimExactly(s: string) returns (head: string, tail: string)
    ensures s == head + Trim(s) + tail && Blank(head) && Blank(tail)
    ensures Trim(s) != [] ==> !IsSpace(Trim(s)[0]) && !IsSpace(Trim(s)[|Trim(s)| - 1])
  {
    tail := EndTrimmed(s);
    head := StartTrimmed(TrimEnd(s));
  }

  lemma {:induction false} EndTrimmed(s: string) returns (tail: string)
    ensures s == TrimEnd(s) + tail && Blank(tail) && (TrimEnd(s) != [] ==> !IsSpace(TrimEnd(s)[|TrimEnd(s)| - 1]))
  {
    hide IsSpace;
    if s != [] && IsSpace(s[|s| - 1]) {
      var t := EndTrimmed(s[..|s| - 1]);
      tail := t + [s[|s| - 1]];
      assert s == s[..|s| - 1] + [s[|s| - 1]];
    } else {
      tail := [];
    }
  }

  lemma {:induction false} StartTrimmed(s: string) returns (head: string)
    ensures s == head + TrimStart(s) && Blank(head) && (TrimStart(s) != [] ==> !IsSpace(TrimStart(s)[0]))
  {
    hide IsSpace;
    if s != [] && IsSpace(s[0]) {
      var h := StartTrimmed(s[1..]);
      head := [s[0]] + h;
      assert s == [s[0]] + s[1..];
    } else {
      head := [];
    }
  }

  function LowerChar(c: char): char { if 'A' <= c <= 'Z' then c - 'A' + 'a' else c }
  function UpperChar(c: char): char { if 'a' <= c <= 'z' then c - 'a' + 'A' else c }

  /**
   * `c.toUpperCase()`, for every character whose upper case is written with
   * ASCII letters; any other one stands for itself.
   */
  function Upper(c: char): string {
    match c
    case '\U{0131}' => "I"
    case '\U{017F}' => "S"
    case '\U{00DF}' => "SS"
    case '\U{FB00}' => "FF"
    case '\U{FB01}' => "FI"
    case '\U{FB02}' => "FL"
    case '\U{FB03}' => "FFI"
    case '\U{FB04}' => "FFL"
    case '\U{FB05}' => "ST"
    case '\U{FB06}' => "ST"
    case _ => [UpperChar(c)]
  }

  const UPPER := "ABCDEFGHIJKLMNOPQRSTUVWXYZ"
  const LOWER := "abcdefghijklmnopqrstuvwxyz"

  /** Lower case takes each of the 26 letters to its own small letter and leaves every other character. */
  lemma {:induction false} LowerExactly(c: char, k: nat)
    ensures |UPPER| == |LOWER| == 26
    ensures k < 26 ==> LowerChar(UPPER[k]) == LOWER[k]
    ensures c !in UPPER ==> LowerChar(c) == c
  {
    Letters(k);
    if 'A' <= c <= 'Z' {
      Letters(c as int - 'A' as int);
    }
  }

  lemma {:induction false} Letters(k: nat)
    ensures |UPPER| == |LOWER| == 26
    ensures k < 26 ==> UPPER[k] == 'A' + k as char && LOWER[k] == 'a' + k as char
  {
    assert UPPER == "ABCDEFGHIJKLM" + "NOPQRSTUVWXYZ" && LOWER == "abcdefghijklm" + "nopqrstuvwxyz";
  }

  function Lower(s: string): (r: string)
    ensures |r| == |s| && forall i :: 0 <= i < |s| ==> r[i] == LowerChar(s[i])
  {
    seq(|s|, i requires 0 <= i < |s| => LowerChar(s[i]))
  }

  // ------------------------------------------------------------------ decimals

  function Digit(d: int): char
    requires 0 <= d < 10
  {
    '0' + d as char
  }

  predicate IsDigit(c: char) { '0' <= c <= '9' }
  predicate AllDigits(s: string) { forall i | 0 <= i < |s| :: IsDigit(s[i]) }

  /** `String(n)` of a whole number that is not negative. */
  function Decimal(n: nat): (s: string)
    ensures s != [] && AllDigits(s) && (|s| > 1 ==> s[0] != '0')
    ensures n > 0 ==> s[0] != '0'
  {
    if n < 10 then [Digit(n)] else Decimal(n / 10) + [Digit(n % 10)]
  }

  /** isPasswordStrongEnough: eight characters with a letter and a digit among them. */
  predicate StrongPassword(password: string) {
    && |password| >= 8
    && (exists i :: 0 <= i < |password| && ('A' <= password[i] <= 'Z' || 'a' <= password[i] <= 'z'))
    && (exists i :: 0 <= i < |password| && IsDigit(password[i]))
  }

  /** A letter of either case or a digit is one of the 62 characters of these three strings. */
  lemma {:induction false} PasswordRule(password: string)
    ensures StrongPassword(password) <==>
            |password| >= 8 && (exists i :: 0 <= i < |password| && (password[i] in UPPER || password[i] in LOWER))
            && (exists i :: 0 <= i < |password| && password[i] in "0123456789")
  {
    forall i | 0 <= i < |password|
      ensures password[i] in UPPER <==> 'A' <= password[i] <= 'Z'
      ensures password[i] in LOWER <==> 'a' <= password[i] <= 'z'
      ensures password[i] in "0123456789" <==> IsDigit(password[i])
    {
      OneOf(password[i]);
    }
  }

  lemma {:induction false} OneOf(c: char)
    ensures c in UPPER <==> 'A' <= c <= 'Z'
    ensures c in LOWER <==> 'a' <= c <= 'z'
    ensures c in "0123456789" <==> IsDigit(c)
  {
    if 'A' <= c <= 'Z' {
      Letters(c as int - 'A' as int);
    }
    if 'a' <= c <= 'z' {
      Letters(c as int - 'a' as int);
    }
    forall k: nat | k < 26 ensures 'A' <= UPPER[k] <= 'Z' && 'a' <= LOWER[k] <= 'z' {
      Letters(k);
    }
    Ten(c);
  }

  lemma {:induction false} Ten(c: char)
    ensures c in "0123456789" <==> IsDigit(c)
  {
    assert "0123456789" == "01234" + "56789";
    if IsDigit(c) {
      assert c == "0123456789"[c as int - '0' as int];
    }
  }

  function Zeros(n: nat): (s: string)
    ensures |s| == n && forall i :: 0 <= i < n ==> s[i] == '0'
  {
    seq(n, _ => '0')
  }

  /** `s.padStart(width, "0")`. */
  function PadStart(s: string, width: nat): string { if |s| >= width then s else Zeros(width - |s|) + s }

  function ValueOf(s: string): nat
    requires AllDigits(s)
  {
    if s == [] then 0 else 10 * ValueOf(s[..|s| - 1]) + (s[|s| - 1] as int - '0' as int)
  }

  lemma {:induction false} DecimalValue(n: nat)
    ensures ValueOf(Decimal(n)) == n
  {
    if n >= 10 {
      DecimalValue(n / 10);
      assert Decimal(n)[..|Decimal(n)| - 1] == Decimal(n / 10);
    }
  }

  lemma {:induction false} LeadingZeros(k: nat, s: string)
    requires AllDigits(s)
    ensures AllDigits(Zeros(k) + s) && ValueOf(Zeros(k) + s) == ValueOf(s)
    decreases |s|, k
  {
    var z := Zeros(k) + s;
    if s != [] {
      LeadingZeros(k, s[..|s| - 1]);
      assert z[..|z| - 1] == Zeros(k) + s[..|s| - 1];
    } else if k > 0 {
      LeadingZeros(k - 1, s);
      assert z[..|z| - 1] == Zeros(k - 1) + s;
    }
  }

  /** Padding a number loses nothing, however long the number is. */
  lemma {:induction false} PaddedValue(n: nat, width: nat)
    ensures AllDigits(PadStart(Decimal(n), width)) && ValueOf(PadStart(Decimal(n), width)) == n
  {
    DecimalValue(n);
    if |Decimal(n)| < width {
      LeadingZeros(width - |Decimal(n)|, Decimal(n));
    }
  }
}
