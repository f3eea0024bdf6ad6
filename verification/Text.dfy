/** The string operations of Go's standard library that the server's parsers
    rely on, over sequences of characters. */
module Text {

  datatype Option<+T> = None | Some(value: T)

  /** strings.Split with a one-character separator: the pieces between separators. */
  function Split(s: string, sep: char): (r: seq<string>)
    ensures |r| >= 1
  {
    if s == "" then [""]
    else
      var r := Split(s[1..], sep);
      if s[0] == sep then [""] + r else [[s[0]] + r[0]] + r[1..]
  }

  /** The pieces with the separator between them. */
  function Join(pieces: seq<string>, sep: char): string {
    if pieces == [] then "" else if |pieces| == 1 then pieces[0] else pieces[0] + [sep] + Join(pieces[1..], sep)
  }

  /** Splitting undoes joining, for pieces free of the separator. */
  lemma {:induction false} SplitJoin(pieces: seq<string>, sep: char)
    requires |pieces| >= 1
    requires forall p | p in pieces :: sep !in p
    ensures Split(Join(pieces, sep), sep) == pieces
  {
    if |pieces| == 1 {
      SplitOne(pieces[0], sep);
    } else {
      SplitJoin(pieces[1..], sep);
      SplitStep(pieces[0], Join(pieces[1..], sep), sep);
      assert pieces[0] + [sep] + Join(pieces[1..], sep) == pieces[0] + ([sep] + Join(pieces[1..], sep));
    }
  }

  lemma {:induction false} SplitOne(p: string, sep: char)
    requires sep !in p
    ensures Split(p, sep) == [p]
  {
    if p != "" {
      SplitOne(p[1..], sep);
      assert [p[0]] + p[1..] == p;
    }
  }

  lemma {:induction false} SplitStep(p: string, rest: string, sep: char)
    requires sep !in p
    ensures Split(p + ([sep] + rest), sep) == [p] + Split(rest, sep)
  {
    var s := p + ([sep] + rest);
    if p == "" {
      assert s[1..] == rest;
    } else {
      assert s[1..] == p[1..] + ([sep] + rest);
      SplitStep(p[1..], rest, sep);
      assert [s[0]] + p[1..] == p;
    }
  }

  /** Joining undoes splitting, for every string. */
  lemma {:induction false} JoinSplit(s: string, sep: char)
    ensures Join(Split(s, sep), sep) == s
    ensures forall p | p in Split(s, sep) :: sep !in p
  {
    if s != "" {
      JoinSplit(s[1..], sep);
      var r := Split(s[1..], sep);
      if s[0] == sep {
        assert ([""] + r)[1..] == r;
      } else {
        assert ([[s[0]] + r[0]] + r[1..])[1..] == r[1..];
      }
    }
  }

  /** unicode.IsSpace. */
  predicate IsSpace(c: char) {
    var u := c as int;
    || 0x09 <= u <= 0x0D || u == 0x20 || u == 0x85 || u == 0xA0 || u == 0x1680
    || 0x2000 <= u <= 0x200A || u == 0x2028 || u == 0x2029 || u == 0x202F || u == 0x205F || u == 0x3000
  }

  function TrimLeft(s: string): string {
    if s != "" && IsSpace(s[0]) then TrimLeft(s[1..]) else s
  }

  function TrimRight(s: string): string {
    if s != "" && IsSpace(s[|s| - 1]) then TrimRight(s[..|s| - 1]) else s
  }

  /** strings.TrimSpace. */
  function TrimSpace(s: string): string {
    TrimRight(TrimLeft(s))
  }

  /** A blank as it is typed between words, and a character that shows. */
  predicate IsBlank(c: char) {
    c == ' ' || c == '\t' || c == '\n' || c == '\r'
  }

  predicate IsGraphic(c: char) {
    '!' <= c <= '~'
  }

  lemma {:induction false} TrimLeftDrops(l: string, s: string)
    requires (forall c | c in l :: IsBlank(c)) && (s == "" || !IsSpace(s[0]))
    ensures TrimLeft(l + s) == s
  {
    if l == "" {
      assert l + s == s;
    } else {
      assert (l + s)[1..] == l[1..] + s;
      assert IsBlank(l[0]);
      TrimLeftDrops(l[1..], s);
    }
  }

  lemma {:induction false} TrimRightDrops(s: string, r: string)
    requires (forall c | c in r :: IsBlank(c)) && (s == "" || !IsSpace(s[|s| - 1]))
    ensures TrimRight(s + r) == s
  {
    if r == "" {
      assert s + r == s;
    } else {
      assert (s + r)[..|s + r| - 1] == s + r[..|r| - 1];
      assert IsBlank(r[|r| - 1]);
      TrimRightDrops(s, r[..|r| - 1]);
    }
  }

  /** Trimming drops the blanks around a text, and nothing of the text. */
  lemma TrimDropsBlanks(l: string, s: string, r: string)
    requires (forall c | c in l || c in r :: IsBlank(c)) && (s != "" ==> IsGraphic(s[0]) && IsGraphic(s[|s| - 1]))
    ensures TrimSpace(l + s + r) == s
  {
    if s == "" {
      forall c | c in l + r ensures IsBlank(c) {
      }
      TrimLeftDrops(l + r, "");
      assert l + s + r == l + r + "";
    } else {
      assert l + s + r == l + (s + r);
      TrimLeftDrops(l, s + r);
      TrimRightDrops(s, r);
    }
  }

  predicate IsDigit(c: char) {
    '0' <= c <= '9'
  }

  /** The value of a string of decimal digits. */
  function Decimal(s: string): nat
    requires forall c | c in s :: IsDigit(c)
  {
    if s == "" then 0
    else
      assert IsDigit(s[|s| - 1]);
      10 * Decimal(s[..|s| - 1]) + (s[|s| - 1] as int - '0' as int)
  }

  /** strconv.Atoi: an optional sign and at least one digit. Values beyond the
      64-bit range are returned here and rejected as out of range by the caller. */
  function Atoi(s: string): Option<int> {
    var digits := if s != "" && (s[0] == '-' || s[0] == '+') then s[1..] else s;
    if digits == "" || exists c | c in digits :: !IsDigit(c) then None
    else
      var magnitude: int := Decimal(digits);
      Some(if s[0] == '-' then -magnitude else magnitude)
  }

  /** A natural number in decimal, as %d prints it. */
  function Itoa(n: nat): (s: string)
  {
    if n < 10 then [('0' as int + n) as char] else Itoa(n / 10) + [('0' as int + n % 10) as char]
  }

  /** Atoi's digits undo Itoa, so different numbers print differently. */
  lemma {:induction false} DecimalOfItoa(n: nat)
    ensures (forall c | c in Itoa(n) :: IsDigit(c)) && Itoa(n) != "" && Decimal(Itoa(n)) == n
  {
    if n >= 10 {
      DecimalOfItoa(n / 10);
      assert Itoa(n)[..|Itoa(n)| - 1] == Itoa(n / 10);
    } else {
      assert Itoa(n)[..0] == "";
    }
  }

  /** Atoi reads back what Itoa prints, with or without a sign. */
  lemma AtoiReadsItoa(n: nat)
    ensures Atoi(Itoa(n)) == Some(n) && Atoi("+" + Itoa(n)) == Some(n) && Atoi("-" + Itoa(n)) == Some(-(n as int))
  {
    DecimalOfItoa(n);
    var s := Itoa(n);
    assert IsDigit(s[0]);
    assert ("+" + s)[1..] == s && ("-" + s)[1..] == s;
  }

  /** And nothing but an optional sign followed by digits. */
  lemma AtoiReadsNumeralsOnly(s: string)
    requires Atoi(s).Some?
    ensures s != "" && forall i | 0 < i < |s| :: '0' <= s[i] <= '9'
    ensures '0' <= s[0] <= '9' || ((s[0] == '+' || s[0] == '-') && |s| > 1)
  {
    var digits := if s != "" && (s[0] == '-' || s[0] == '+') then s[1..] else s;
    assert forall c | c in digits :: IsDigit(c);
    assert IsDigit(digits[0]);
    forall i | 0 < i < |s| ensures '0' <= s[i] <= '9' {
      var c := if digits == s then digits[i] else digits[i - 1];
      assert c in digits && c == s[i];
    }
  }

  lemma ItoaInjective(n: nat, k: nat)
    requires Itoa(n) == Itoa(k)
    ensures n == k
  {
    DecimalOfItoa(n);
    DecimalOfItoa(k);
  }
}
