/** The few text operations that the message codecs are built on: decimal printing as by
    `ostream << int`, `atoi`, and cutting a text at its first space. */
module Text {

  predicate IsDigit(c: char) { '0' <= c <= '9' }

  function DigitValue(c: char): nat
    requires IsDigit(c)
  {
    c as int - '0' as int
  }

  function DigitChar(d: nat): char
    requires d < 10
  {
    ('0' as int + d) as char
  }

  function Digits(n: nat): (s: string)
    ensures s != [] && forall c :: c in s ==> IsDigit(c)
  {
    if n < 10 then [DigitChar(n)] else Digits(n / 10) + [DigitChar(n % 10)]
  }

  function Print(n: int): (s: string)
    ensures s != [] && ' ' !in s
  {
    if n < 0 then ['-'] + Digits(-n) else Digits(n)
  }

  function SkipSpaces(s: string): string {
    if s != [] && (s[0] == ' ' || '\t' <= s[0] <= '\r') then SkipSpaces(s[1..]) else s
  }

  function LeadingNumber(read: nat, s: string): nat
    decreases |s|
  {
    if s != [] && IsDigit(s[0]) then LeadingNumber(10 * read + DigitValue(s[0]), s[1..]) else read
  }

  /** `atoi`, on mathematical integers. */
  function Atoi(s: string): int {
    var t := SkipSpaces(s);
    if t != [] && t[0] == '-' then -(LeadingNumber(0, t[1..]) as int)
    else if t != [] && t[0] == '+' then LeadingNumber(0, t[1..])
    else LeadingNumber(0, t)
  }

  lemma {:induction false} ReadOn(read: nat, a: string, b: string)
    requires forall c :: c in a ==> IsDigit(c)
    ensures LeadingNumber(read, a + b) == LeadingNumber(LeadingNumber(read, a), b)
    decreases |a|
  {
    if a == [] {
      assert a + b == b;
    } else {
      assert (a + b)[1..] == a[1..] + b;
      ReadOn(10 * read + DigitValue(a[0]), a[1..], b);
    }
  }

  lemma {:induction false} ReadDigits(n: nat)
    ensures LeadingNumber(0, Digits(n)) == n
  {
    if n < 10 {
      assert [DigitChar(n)][1..] == [];
    } else {
      ReadDigits(n / 10);
      ReadOn(0, Digits(n / 10), [DigitChar(n % 10)]);
      assert [DigitChar(n % 10)][1..] == [];
    }
  }

  /** Reading a printed number gives it back, negative numbers included. */
  lemma AtoiPrint(n: int)
    ensures Atoi(Print(n)) == n
  {
    if n < 0 {
      ReadDigits(-n);
      assert (['-'] + Digits(-n))[1..] == Digits(-n);
    } else {
      ReadDigits(n);
      assert IsDigit(Digits(n)[0]);
    }
  }

  /** Decimal notation: the ten digits, one more digit to the right, and the minus sign. */
  lemma Decimal(n: nat, d: nat)
    requires d <= 9
    ensures Print(d) == ["0123456789"[d]]
    ensures n > 0 ==> Print(10 * n + d) == Print(n) + Print(d)
    ensures n > 0 ==> Print(-(n as int)) == "-" + Print(n)
  {
    assert (10 * n + d) / 10 == n && (10 * n + d) % 10 == d;
  }

  lemma OneCharacter(n: int)
    ensures |Print(n)| == 1 <==> 0 <= n <= 9
  {
    if n >= 10 {
      assert |Digits(n / 10)| >= 1;
    }
  }

  /** `s.find_first_of(" ")`, with `|s|` for `npos`. */
  function FirstSpace(s: string): (k: nat)
    ensures k <= |s|
  {
    if s == [] || s[0] == ' ' then 0 else 1 + FirstSpace(s[1..])
  }

  /** `s.substr(0, s.find_first_of(" "))`: the whole text when it has no space. */
  function Head(s: string): string {
    s[..FirstSpace(s)]
  }

  /** `s.substr(s.find_first_of(" ") + 1)`: the whole text when it has no space, because then
      the position found is `npos` and `npos + 1` is 0. */
  function Rest(s: string): string {
    if FirstSpace(s) == |s| then s else s[FirstSpace(s) + 1..]
  }

  lemma {:induction false} SpaceAt(s: string, n: nat)
    requires n <= |s| && ' ' !in s[..n] && (n < |s| ==> s[n] == ' ')
    ensures FirstSpace(s) == n
  {
    if n > 0 {
      assert s[0] == s[..n][0];
      assert s[1..][..n - 1] == s[..n][1..];
      SpaceAt(s[1..], n - 1);
    }
  }

  lemma CutWord(w: string, s: string)
    requires ' ' !in w
    ensures Head(w) == w && Rest(w) == w
    ensures Head(w + [' '] + s) == w && Rest(w + [' '] + s) == s
  {
    var t := w + [' '] + s;
    assert t[..|w|] == w && w[..|w|] == w;
    SpaceAt(t, |w|);
    SpaceAt(w, |w|);
  }

  lemma {:induction false} SpaceFound(s: string)
    ensures ' ' in s <==> FirstSpace(s) < |s|
  {
    if s != [] && s[0] != ' ' {
      assert s == [s[0]] + s[1..];
      SpaceFound(s[1..]);
    }
  }

  /** Cutting a text that has a space makes it shorter; otherwise nothing is cut. */
  lemma RestShrinks(s: string)
    ensures |Rest(s)| <= |s|
    ensures |Rest(s)| == |s| <==> ' ' !in s
    ensures ' ' !in s ==> Head(s) == s && Rest(s) == s
  {
    SpaceFound(s);
  }

  /** The first field of a text that starts with a printed number. */
  lemma FirstField(n: int, s: string)
    ensures Atoi(Head(Print(n) + [' '] + s)) == n && Rest(Print(n) + [' '] + s) == s
    ensures Atoi(Head(Print(n))) == n && Rest(Print(n)) == Print(n)
  {
    AtoiPrint(n);
    CutWord(Print(n), s);
  }
}
