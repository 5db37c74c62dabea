/** The JavaScript string operations the sources lean on. */
module JsText {
  import opened Seqs

  /** The characters matched by \s and stripped by trim(): WhiteSpace and LineTerminator of ECMA-262. */
  predicate IsSpace(c: char) {
    || '\U{0009}' <= c <= '\U{000d}'
    || c == ' '
    || c == '\U{00a0}' || c == '\U{1680}' || '\U{2000}' <= c <= '\U{200a}'
    || c == '\U{2028}' || c == '\U{2029}' || c == '\U{202f}' || c == '\U{205f}' || c == '\U{3000}' || c == '\U{feff}'
  }

  function DropWhile(p: char -> bool, s: string): (r: string)
    ensures |r| <= |s|
  {
    if s != "" && p(s[0]) then DropWhile(p, s[1..]) else s
  }

  function DropEndWhile(p: char -> bool, s: string): string {
    if s != "" && p(s[|s| - 1]) then DropEndWhile(p, s[..|s| - 1]) else s
  }

  function TrimStart(s: string): string { DropWhile(IsSpace, s) }

  function TrimEnd(s: string): string { DropEndWhile(IsSpace, s) }

  function Trim(s: string): string { TrimEnd(TrimStart(s)) }

  predicate All(p: char -> bool, s: string) { forall i :: 0 <= i < |s| ==> p(s[i]) }

  predicate AllSpace(s: string) { All(IsSpace, s) }

  lemma {:induction false} DropWhileSpec(p: char -> bool, s: string) returns (a: string)
    ensures s == a + DropWhile(p, s) && All(p, a)
    ensures DropWhile(p, s) != "" ==> !p(DropWhile(p, s)[0])
  {
    if s != "" && p(s[0]) {
      var a' := DropWhileSpec(p, s[1..]);
      AllCons(p, s[0], a');
      a := [s[0]] + a';
      assert s == [s[0]] + s[1..];
    } else {
      a := "";
    }
  }

  lemma AllCons(p: char -> bool, c: char, s: string)
    requires p(c) && All(p, s)
    ensures All(p, [c] + s)
  {
  }

  lemma {:induction false} DropEndWhileSpec(p: char -> bool, s: string) returns (b: string)
    ensures s == DropEndWhile(p, s) + b && All(p, b)
    ensures DropEndWhile(p, s) != "" ==> !p(DropEndWhile(p, s)[|DropEndWhile(p, s)| - 1])
  {
    if s != "" && p(s[|s| - 1]) {
      var b' := DropEndWhileSpec(p, s[..|s| - 1]);
      b := b' + [s[|s| - 1]];
      assert s == s[..|s| - 1] + [s[|s| - 1]];
    } else {
      b := "";
    }
  }

  /** Neither end is white space. */
  predicate Trimmed(s: string) {
    s != "" ==> !IsSpace(s[0]) && !IsSpace(s[|s| - 1])
  }

  lemma DropBothSpec(p: char -> bool, s: string) returns (a: string, b: string)
    ensures var r := DropEndWhile(p, DropWhile(p, s));
      && s == a + r + b && All(p, a) && All(p, b)
      && (r != "" ==> !p(r[0]) && !p(r[|r| - 1]))
  {
    var t := DropWhile(p, s);
    a := DropWhileSpec(p, s);
    b := DropEndWhileSpec(p, t);
    var r := DropEndWhile(p, t);
    assert r != "" ==> r[0] == t[0];
    assert a + (r + b) == a + r + b;
  }

  /** What is cut off is white space, what stays is a trimmed piece of the text. */
  lemma TrimPieces(s: string) returns (a: string, b: string)
    ensures s == a + Trim(s) + b && AllSpace(a) && AllSpace(b)
    ensures Trimmed(Trim(s))
  {
    a, b := DropBothSpec(IsSpace, s);
  }

  lemma TrimIsTrimmed(s: string)
    ensures Trimmed(Trim(s))
    ensures Trim(s) == s <==> Trimmed(s)
  {
    var a, b := TrimPieces(s);
    assert a != "" ==> s[0] == a[0];
    assert b != "" ==> s[|s| - 1] == b[|b| - 1];
    if Trimmed(s) {
      assert a == "" && b == "";
    }
  }

  lemma TrimWithin(s: string)
    ensures forall c :: c in Trim(s) ==> c in s
    ensures forall c :: c in s && !IsSpace(c) ==> c in Trim(s)
  {
    var a, b := TrimPieces(s);
  }

  lemma TrimFirst(s: string)
    requires s != "" && !IsSpace(s[0])
    ensures Trim(s) != "" && Trim(s)[0] == s[0]
  {
    var b := DropEndWhileSpec(IsSpace, s);
    assert TrimStart(s) == s;
    assert |TrimEnd(s)| == 0 ==> s == b;
  }

  /** s.split(sep) for a one-character separator: never empty. */
  function Split(s: string, sep: char): (r: seq<string>)
    ensures |r| >= 1
    ensures forall p :: p in r ==> sep !in p
  {
    if s == "" then [""]
    else if s[0] == sep then [""] + Split(s[1..], sep)
    else
      var r := Split(s[1..], sep);
      [[s[0]] + r[0]] + r[1..]
  }

  function Join(parts: seq<string>, sep: string): string {
    if parts == [] then ""
    else if |parts| == 1 then parts[0]
    else parts[0] + sep + Join(parts[1..], sep)
  }

  lemma {:induction false} SplitWhole(s: string, sep: char)
    requires sep !in s
    ensures Split(s, sep) == [s]
  {
    if s != "" {
      SplitWhole(s[1..], sep);
      assert [s[0]] + s[1..] == s;
    }
  }

  lemma {:induction false} SplitFirst(s: string, sep: char, t: string)
    ensures sep !in s ==> Split(s + [sep] + t, sep) == [s] + Split(t, sep)
  {
    if s == "" {
      assert (s + [sep] + t)[1..] == t;
    } else if sep !in s {
      SplitFirst(s[1..], sep, t);
      assert (s + [sep] + t)[1..] == s[1..] + [sep] + t;
      assert [s[0]] + s[1..] == s;
    }
  }

  /** Joining separator-free pieces and splitting again gives the pieces back. */
  lemma {:induction false} SplitJoin(parts: seq<string>, sep: char)
    requires parts != [] && forall p :: p in parts ==> sep !in p
    ensures Split(Join(parts, [sep]), sep) == parts
  {
    if |parts| == 1 {
      SplitWhole(parts[0], sep);
    } else {
      SplitJoin(parts[1..], sep);
      SplitFirst(parts[0], sep, Join(parts[1..], [sep]));
      assert parts == [parts[0]] + parts[1..];
    }
  }

  // ------------------------------------------------------------ decimal numbers

  predicate IsDigit(c: char) { '0' <= c <= '9' }

  /** /^\d+$/ */
  predicate AllDigits(s: string) { s != "" && forall i :: 0 <= i < |s| ==> IsDigit(s[i]) }

  /** Number(s) of a digit string. */
  function DigitsValue(s: string): nat
    requires forall i :: 0 <= i < |s| ==> IsDigit(s[i])
  {
    if s == "" then 0
    else
      assert IsDigit(s[|s| - 1]);
      DigitsValue(s[..|s| - 1]) * 10 + (s[|s| - 1] as int - '0' as int)
  }

  /** String(n) of a non-negative integer. */
  function Decimal(n: nat): (s: string)
    ensures AllDigits(s)
  {
    if n < 10 then ['0' + n as char] else Decimal(n / 10) + ['0' + (n % 10) as char]
  }

  lemma {:induction false} DecimalRoundTrip(n: nat)
    ensures DigitsValue(Decimal(n)) == n
  {
    if n < 10 {
      assert Decimal(n)[..0] == "";
    } else {
      DecimalRoundTrip(n / 10);
      var s := Decimal(n);
      assert s[..|s| - 1] == Decimal(n / 10);
    }
  }

  lemma {:induction false} DecimalInjective(m: nat, n: nat)
    requires Decimal(m) == Decimal(n)
    ensures m == n
  {
    DecimalRoundTrip(m);
    DecimalRoundTrip(n);
  }
}
