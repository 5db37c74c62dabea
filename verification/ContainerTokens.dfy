/** Command and argument text against Kubernetes string lists (src/utils/containerTokens.js). */
module ContainerTokens {
  import opened Wrappers
  import opened Seqs
  import opened JsText

  predicate IsQuote(c: char) { c == '"' || c == '\'' }

  /**
   The tokens of the text s, read by a scanner that has collected `cur`, has seen something of the
   token if `has`, and stands inside the quote q.
   */
  function Scan(s: string, cur: string, has: bool, q: Option<char>): seq<string>
    decreases |s|
  {
    if s == "" then (if has || cur != "" then [cur] else [])
    else
      var c := s[0];
      if q.Some? then
        if c == '\\' && |s| > 1 && (s[1] == q.value || s[1] == '\\') then Scan(s[2..], cur + [s[1]], true, q)
        else if c == q.value then Scan(s[1..], cur, true, None)
        else Scan(s[1..], cur + [c], true, q)
      else if IsQuote(c) then Scan(s[1..], cur, true, Some(c))
      else if IsSpace(c) then (if has || cur != "" then [cur] + Scan(s[1..], "", false, None)
      else Scan(s[1..], cur, has, None))
      else Scan(s[1..], cur + [c], true, None)
  }

  /** splitCommandTokens: the character loop computes the scan. */
  method SplitCommandTokens(str: string) returns (out: seq<string>)
    ensures out == Scan(str, "", false, None)
  {
    out := [];
    var cur, has, q := "", false, None;
    var i := 0;
    while i < |str|
      invariant i <= |str|
      invariant out + Scan(str[i..], cur, has, q) == Scan(str, "", false, None)
    {
      var c := str[i];
      ghost var rest := str[i..];
      assert rest[0] == c && rest[1..] == str[i + 1..];
      if q.Some? {
        if c == '\\' && i + 1 < |str| && (str[i + 1] == q.value || str[i + 1] == '\\') {
          assert rest[1] == str[i + 1] && rest[2..] == str[i + 2..];
          cur := cur + [str[i + 1]];
          i := i + 1;
        } else if c == q.value {
          q := None;
        } else {
          cur := cur + [c];
        }
        has := true;
      } else if IsQuote(c) {
        q := Some(c);
        has := true;
      } else if IsSpace(c) {
        if has || cur != "" {
          assert out + ([cur] + Scan(rest[1..], "", false, None)) == (out + [cur]) + Scan(rest[1..], "", false, None);
          out := out + [cur];
          cur := "";
          has := false;
        }
      } else {
        cur := cur + [c];
        has := true;
      }
      i := i + 1;
    }
    assert str[i..] == "";
    if has || cur != "" {
      out := out + [cur];
    }
  }

  // ------------------------------------------------------------ what the scanner reads

  /** Inside quotes the characters other than that quote and the backslash are taken as they are. */
  lemma {:induction false} ScanInside(q: char, t: string, cur: string, rest: string)
    requires q !in t && '\\' !in t
    ensures Scan(t + rest, cur, true, Some(q)) == Scan(rest, cur + t, true, Some(q))
  {
    if t == "" {
      assert t + rest == rest && cur + t == cur;
    } else {
      assert t[0] in t && (t + rest)[1..] == t[1..] + rest;
      ScanInside(q, t[1..], cur + [t[0]], rest);
      assert cur + [t[0]] + t[1..] == cur + t;
    }
  }

  lemma ScanOpens(q: char, cur: string, has: bool, rest: string)
    requires q == '"' || q == '\''
    ensures Scan([q] + rest, cur, has, None) == Scan(rest, cur, true, Some(q))
  {
    assert ([q] + rest)[1..] == rest;
  }

  lemma ScanCloses(q: char, cur: string, rest: string)
    requires q != '\\'
    ensures Scan([q] + rest, cur, true, Some(q)) == Scan(rest, cur, true, None)
  {
    assert ([q] + rest)[1..] == rest;
  }

  /**
   Either quote encloses literal text, whatever is between: white space and the other quote stay. An
   empty pair of quotes is an empty token, and a quote that is never closed takes the rest of the text.
   */
  lemma QuotedText(q: char, t: string, cur: string, has: bool, rest: string)
    requires q == '"' || q == '\''
    requires q !in t && '\\' !in t
    ensures Scan([q] + t + [q] + rest, cur, has, None) == Scan(rest, cur + t, true, None)
    ensures Scan([q] + t, cur, has, None) == [cur + t]
    ensures Scan([q, q], "", false, None) == [""]
  {
    assert [q] + t + [q] + rest == [q] + (t + ([q] + rest));
    ScanOpens(q, cur, has, t + ([q] + rest));
    ScanInside(q, t, cur, [q] + rest);
    ScanCloses(q, cur + t, rest);
    ScanOpens(q, cur, has, t);
    ScanInside(q, t, cur, "");
    assert t + "" == t;
    assert [q, q] == [q] + [q] && [q] == [q] + "";
    ScanOpens(q, "", false, [q]);
    ScanCloses(q, "", "");
  }

  /**
   Inside quotes a backslash before that quote, or before a backslash, stands for that character; before
   anything else, and at the end of the text, it stands for itself.
   */
  lemma BackslashInside(q: char, c: char, cur: string, rest: string)
    requires q == '"' || q == '\''
    ensures Scan(['\\', c] + rest, cur, true, Some(q)) ==
      if c == q || c == '\\' then Scan(rest, cur + [c], true, Some(q))
      else Scan([c] + rest, cur + ['\\'], true, Some(q))
    ensures Scan(['\\'], cur, true, Some(q)) == [cur + ['\\']]
  {
    var s := ['\\', c] + rest;
    assert s[0] == '\\' && s[1] == c && s[2..] == rest && s[1..] == [c] + rest;
    assert ['\\'][1..] == "";
  }

  /** Outside quotes white space ends the token, if there is one; any other character, a backslash too, joins it. */
  lemma PlainText(c: char, cur: string, has: bool, rest: string)
    requires c != '"' && c != '\''
    ensures Scan([c] + rest, cur, has, None) ==
      if !IsSpace(c) then Scan(rest, cur + [c], true, None)
      else if has || cur != "" then [cur] + Scan(rest, "", false, None)
      else Scan(rest, "", false, None)
    ensures Scan("", cur, has, None) == if has || cur != "" then [cur] else []
  {
    assert ([c] + rest)[1..] == rest;
  }

  /** t.replace(/c/g, sub) for one character c. */
  function Replace(t: string, c: char, sub: string): string {
    if t == "" then "" else (if t[0] == c then sub else [t[0]]) + Replace(t[1..], c, sub)
  }

  function Escape(t: string): string { Replace(Replace(t, '\\', "\\\\"), '"', "\\\"") }

  predicate NeedsQuotes(t: string) { exists i :: 0 <= i < |t| && (IsSpace(t[i]) || IsQuote(t[i])) }

  function Quoted(t: string): string { if NeedsQuotes(t) then "\"" + Escape(t) + "\"" else t }

  function JoinCommandTokens(tokens: seq<string>): string { Join(Map(Quoted, tokens), " ") }

  const NON_EMPTY: string -> bool := (t: string) => t != ""

  lemma {:induction false} ReplaceAppend(a: string, b: string, c: char, sub: string)
    ensures Replace(a + b, c, sub) == Replace(a, c, sub) + Replace(b, c, sub)
  {
    if a == "" {
      assert a + b == b;
    } else {
      assert (a + b)[1..] == a[1..] + b;
      ReplaceAppend(a[1..], b, c, sub);
    }
  }

  /** Escaping works character by character. */
  lemma EscapeStep(t: string)
    requires t != ""
    ensures Escape(t) == (if t[0] == '\\' then "\\\\" else if t[0] == '"' then "\\\"" else [t[0]]) + Escape(t[1..])
  {
    var first := if t[0] == '\\' then "\\\\" else [t[0]];
    ReplaceAppend(first, Replace(t[1..], '\\', "\\\\"), '"', "\\\"");
    assert Replace("\\", '"', "\\\"") == "\\" by { assert "\\"[1..] == ""; }
    assert "\\\\"[1..] == "\\";
    assert [t[0]][1..] == "";
  }

  /** One character of an escaped text, inside its quotes. */
  lemma ScanEscapedChar(c: char, cur: string, tail: string)
    ensures Scan((if c == '\\' then "\\\\" else if c == '"' then "\\\"" else [c]) + tail, cur, true, Some('"')) ==
      Scan(tail, cur + [c], true, Some('"'))
  {
    if c == '\\' || c == '"' {
      var s := ['\\', c] + tail;
      assert s[0] == '\\' && s[1] == c && s[2..] == tail;
      assert s == (if c == '\\' then "\\\\" else "\\\"") + tail;
    } else {
      var s := [c] + tail;
      assert s[0] == c && s[1..] == tail;
    }
  }

  /** Reading an escaped token back inside double quotes, up to the closing one. */
  lemma {:induction false} ScanEscaped(t: string, cur: string, rest: string)
    ensures Scan(Escape(t) + "\"" + rest, cur, true, Some('"')) == Scan(rest, cur + t, true, None)
  {
    if t == "" {
      var s := Escape(t) + "\"" + rest;
      assert s == "\"" + rest && s[1..] == rest;
      assert cur + t == cur;
    } else {
      var first := if t[0] == '\\' then "\\\\" else if t[0] == '"' then "\\\"" else [t[0]];
      var tail := Escape(t[1..]) + "\"" + rest;
      EscapeStep(t);
      assert Escape(t) + "\"" + rest == first + tail;
      ScanEscapedChar(t[0], cur, tail);
      ScanEscaped(t[1..], cur + [t[0]], rest);
      assert cur + [t[0]] + t[1..] == cur + t;
    }
  }

  /** Reading a token without white space and quotes; a backslash means nothing out there. */
  lemma {:induction false} ScanPlain(t: string, cur: string, has: bool, rest: string)
    requires !NeedsQuotes(t)
    ensures Scan(t + rest, cur, has, None) == Scan(rest, cur + t, has || t != "", None)
  {
    if t == "" {
      assert t + rest == rest && cur + t == cur;
    } else {
      assert !IsSpace(t[0]) && !IsQuote(t[0]);
      assert forall i :: 0 <= i < |t[1..]| ==> t[1..][i] == t[i + 1];
      ScanPlain(t[1..], cur + [t[0]], true, rest);
      assert (t + rest)[1..] == t[1..] + rest;
      assert cur + [t[0]] + t[1..] == cur + t;
    }
  }

  /** A plain word and the white space after it. */
  lemma ScanWord(a: string, space: char, rest: string)
    requires a != "" && !NeedsQuotes(a) && IsSpace(space)
    ensures Scan(a + ([space] + rest), "", false, None) == [a] + Scan(rest, "", false, None)
  {
    ScanPlain(a, "", false, [space] + rest);
    assert "" + a == a && ([space] + rest)[1..] == rest;
  }

  /** A command as people write it, sh -c 'echo hi': either quote keeps the last argument together. */
  lemma QuotedArgument(a: string, b: string, q: char, t: string)
    requires a != "" && !NeedsQuotes(a) && b != "" && !NeedsQuotes(b)
    requires (q == '"' || q == '\'') && q !in t && '\\' !in t
    ensures Scan(a + ([' '] + (b + ([' '] + ([q] + t + [q])))), "", false, None) == [a, b, t]
  {
    var last := [q] + t + [q];
    ScanWord(a, ' ', b + ([' '] + last));
    ScanWord(b, ' ', last);
    QuotedText(q, t, "", false, "");
    assert last + "" == last && "" + t == t;
  }

  lemma {:induction false} OpenQuote(tail: string)
    ensures Scan("\"" + tail, "", false, None) == Scan(tail, "", true, Some('"'))
  {
    assert ("\"" + tail)[1..] == tail;
  }

  lemma {:induction false} ScanToken(t: string, rest: string)
    ensures Scan(Quoted(t) + rest, "", false, None) == Scan(rest, t, t != "", None)
  {
    assert "" + t == t;
    if NeedsQuotes(t) {
      var tail := Escape(t) + "\"" + rest;
      assert Quoted(t) + rest == "\"" + tail;
      OpenQuote(tail);
      ScanEscaped(t, "", rest);
    } else {
      ScanPlain(t, "", false, rest);
    }
  }

  /** Printing tokens and reading them again gives exactly the non-empty ones, in order. */
  lemma {:induction false} CommandRoundTrip(tokens: seq<string>)
    ensures Scan(JoinCommandTokens(tokens), "", false, None) == Filter(NON_EMPTY, tokens)
  {
    if tokens != [] {
      var t, rest := tokens[0], tokens[1..];
      var qs := Map(Quoted, tokens);
      assert qs[1..] == Map(Quoted, rest);
      CommandRoundTrip(rest);
      if rest == [] {
        ScanToken(t, "");
        assert Quoted(t) + "" == Quoted(t);
        assert Filter(NON_EMPTY, rest) == [];
      } else {
        var more := " " + JoinCommandTokens(rest);
        assert JoinCommandTokens(tokens) == Quoted(t) + more;
        ScanToken(t, more);
        assert more[0] == ' ' && more[1..] == JoinCommandTokens(rest);
      }
    }
  }

  /** The round trip is lossless exactly when no token is empty. */
  lemma CommandLosslessIff(tokens: seq<string>)
    ensures Scan(JoinCommandTokens(tokens), "", false, None) == tokens <==> "" !in tokens
  {
    CommandRoundTrip(tokens);
    if "" !in tokens { FilterAll(NON_EMPTY, tokens); }
  }

  // ------------------------------------------------------------ args, one per line

  function SplitArgLines(s: string): seq<string> { Filter(NON_EMPTY, Map(Trim, Split(s, '\n'))) }

  function JoinArgLines(args: seq<string>): string { Join(args, "\n") }

  predicate OneCleanLine(arg: string) { arg != "" && Trimmed(arg) && '\n' !in arg }

  /** Whatever the text, each argument read is a clean line. */
  lemma ReadLinesAreClean(s: string)
    ensures forall a :: a in SplitArgLines(s) ==> OneCleanLine(a)
  {
    var lines := Split(s, '\n');
    forall a | a in SplitArgLines(s) ensures OneCleanLine(a) {
      var i :| 0 <= i < |lines| && Map(Trim, lines)[i] == a;
      assert lines[i] in lines;
      TrimIsTrimmed(lines[i]);
      TrimWithin(lines[i]);
    }
  }

  /** Each line gives one argument, without the white space at its ends, unless nothing is left of it. */
  lemma ArgOfLine(line: string, rest: string)
    requires '\n' !in line
    ensures var arg := if Trim(line) == "" then [] else [Trim(line)];
      SplitArgLines(line) == arg && SplitArgLines(line + "\n" + rest) == arg + SplitArgLines(rest)
  {
    SplitWhole(line, '\n');
    SplitFirst(line, '\n', rest);
    MapCons(Trim, line, Split(rest, '\n'));
    FilterCons(NON_EMPTY, Trim(line), Map(Trim, Split(rest, '\n')));
    MapCons(Trim, line, []);
    FilterCons(NON_EMPTY, Trim(line), []);
    assert Map(Trim, []) == [] && [Trim(line)] + [] == [Trim(line)] && [line] + [] == [line];
    assert line + ['\n'] + rest == line + "\n" + rest;
  }

  lemma NoArgs()
    ensures SplitArgLines("") == []
  {
    assert Map(Trim, [""]) == [""];
    FilterNone(NON_EMPTY, [""]);
  }

  lemma TrimAll(args: seq<string>)
    requires forall a :: a in args ==> Trimmed(a)
    ensures Map(Trim, args) == args
  {
    forall i | 0 <= i < |args| ensures Trim(args[i]) == args[i] {
      assert args[i] in args;
      TrimIsTrimmed(args[i]);
    }
  }

  lemma CleanArgsKept(args: seq<string>)
    requires args != [] && forall a :: a in args ==> OneCleanLine(a)
    ensures SplitArgLines(JoinArgLines(args)) == args
  {
    assert Split(JoinArgLines(args), '\n') == args by { SplitJoin(args, '\n'); }
    TrimAll(args);
    FilterAll(NON_EMPTY, args);
  }

  /**
   Arguments survive the line-per-argument text exactly when each is a clean line: not empty, no
   white space at either end, no newline. Being free of newlines is not enough.
   */
  lemma ArgsLosslessIff(args: seq<string>)
    ensures SplitArgLines(JoinArgLines(args)) == args <==> forall a :: a in args ==> OneCleanLine(a)
  {
    ReadLinesAreClean(JoinArgLines(args));
    if args == [] {
      NoArgs();
    } else if forall a :: a in args ==> OneCleanLine(a) {
      CleanArgsKept(args);
    }
  }

  /** One newline-free argument that is lost. */
  lemma LeadingSpaceIsLost()
    ensures SplitArgLines(JoinArgLines([" a"])) != [" a"]
  {
    ArgsLosslessIff([" a"]);
    assert " a" in [" a"] && !OneCleanLine(" a");
  }
}
