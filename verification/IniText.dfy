/**
 Text for the configuration reader: trimming, lines, and what a printed line reads back as.
 */
module IniText {

  /** White space as `strings.TrimSpace` sees it. */
  predicate IsSpace(c: char)
  {
    var u := c as int;
    || 9 <= u <= 13 || u == 32 || u == 0x85 || u == 0xA0 || u == 0x1680 || 0x2000 <= u <= 0x200A
    || u == 0x2028 || u == 0x2029 || u == 0x202F || u == 0x205F || u == 0x3000
  }

  predicate IsQuote(c: char) { c == '"' || c == '\'' }

  function TrimLeft(f: char -> bool, s: string): string
  {
    if s != [] && f(s[0]) then TrimLeft(f, s[1..]) else s
  }

  function TrimRight(f: char -> bool, s: string): string
  {
    if s != [] && f(s[|s| - 1]) then TrimRight(f, s[..|s| - 1]) else s
  }

  function TrimBy(f: char -> bool, s: string): string { TrimRight(f, TrimLeft(f, s)) }

  function TrimSpace(s: string): string { TrimBy(IsSpace, s) }

  /** Neither end is a character that `f` would cut. */
  predicate Tight(f: char -> bool, s: string) { s == [] || (!f(s[0]) && !f(s[|s| - 1])) }

  lemma TightStays(f: char -> bool, s: string)
    requires Tight(f, s)
    ensures TrimBy(f, s) == s
  {
  }

  predicate All(f: char -> bool, s: string) { forall i :: 0 <= i < |s| ==> f(s[i]) }

  lemma {:induction false} TrimsLeft(f: char -> bool, a: string, s: string)
    requires All(f, a)
    ensures TrimLeft(f, a + s) == TrimLeft(f, s)
    decreases |a|
  {
    if a == [] {
      assert a + s == s;
    } else {
      assert (a + s)[1..] == a[1..] + s;
      TrimsLeft(f, a[1..], s);
    }
  }

  lemma {:induction false} TrimsRight(f: char -> bool, s: string, b: string)
    requires All(f, b)
    ensures TrimRight(f, s + b) == TrimRight(f, s)
    decreases |b|
  {
    if b == [] {
      assert s + b == s;
    } else {
      var k := |b| - 1;
      assert (s + b)[..|s + b| - 1] == s + b[..k];
      TrimsRight(f, s, b[..k]);
    }
  }

  /** What is left is the part between the characters that `f` cuts. */
  lemma TrimIs(f: char -> bool, a: string, m: string, b: string)
    requires All(f, a) && All(f, b) && Tight(f, m)
    ensures TrimBy(f, a + m + b) == m
  {
    assert a + m + b == a + (m + b);
    TrimsLeft(f, a, m + b);
    if m == [] {
      assert m + b == b && b + [] == b;
      TrimsLeft(f, b, []);
    } else {
      assert (m + b)[0] == m[0];
      TrimsRight(f, m, b);
    }
  }

  lemma {:induction false} LeftParts(f: char -> bool, s: string)
    ensures var t := TrimLeft(f, s);
            |t| <= |s| && s == s[..|s| - |t|] + t && All(f, s[..|s| - |t|]) && (t != [] ==> !f(t[0]))
    decreases |s|
  {
    if s != [] && f(s[0]) { LeftParts(f, s[1..]); }
  }

  lemma RightStep(f: char -> bool, s: string)
    requires s != [] && f(s[|s| - 1])
    ensures TrimRight(f, s) == TrimRight(f, s[..|s| - 1])
  {
  }

  lemma {:induction false} RightParts(f: char -> bool, s: string)
    ensures var t := TrimRight(f, s); |t| <= |s| && s == t + s[|t|..] && All(f, s[|t|..]) && (t != [] ==> !f(t[|t| - 1]))
    decreases |s|
  {
    if s != [] && f(s[|s| - 1]) {
      hide TrimRight;
      var p, t := s[..|s| - 1], TrimRight(f, s);
      RightStep(f, s);
      RightParts(f, p);
      assert s[|t|..] == p[|t|..] + [s[|s| - 1]];
    }
  }

  /** Every string is what is left of it between characters that `f` cuts. */
  lemma TrimParts(f: char -> bool, s: string) returns (a: string, b: string)
    ensures s == a + TrimBy(f, s) + b && All(f, a) && All(f, b) && Tight(f, TrimBy(f, s))
  {
    var t := TrimLeft(f, s);
    LeftParts(f, s);
    RightParts(f, t);
    a, b := s[..|s| - |t|], t[|TrimBy(f, s)|..];
  }

  // ---- lines

  predicate OneLine(s: string) { '\n' !in s && (s == [] || s[|s| - 1] != '\r') }

  /** A trailing carriage return does not belong to the line. */
  function DropReturn(s: string): string { if s != [] && s[|s| - 1] == '\r' then s[..|s| - 1] else s }

  /** The lines of a text, as `bufio.Scanner` delivers them; `line` is what has been read of the current one. */
  function LinesFrom(text: string, line: string): seq<string>
    decreases |text|
  {
    if text == [] then if line == [] then [] else [DropReturn(line)]
    else if text[0] == '\n' then [DropReturn(line)] + LinesFrom(text[1..], [])
    else LinesFrom(text[1..], line + [text[0]])
  }

  function Lines(text: string): seq<string> { LinesFrom(text, []) }

  function Unlines(lines: seq<string>): string
  {
    if lines == [] then [] else lines[0] + ['\n'] + Unlines(lines[1..])
  }

  lemma {:induction false} ReadsLine(line: string, got: string, rest: string)
    requires '\n' !in line
    ensures LinesFrom(line + ['\n'] + rest, got) == [DropReturn(got + line)] + LinesFrom(rest, [])
    decreases |line|
  {
    var text := line + ['\n'] + rest;
    if line == [] {
      assert text == ['\n'] + rest && text[1..] == rest && got + line == got;
    } else {
      assert text[1..] == line[1..] + ['\n'] + rest;
      assert got + line == (got + [line[0]]) + line[1..];
      ReadsLine(line[1..], got + [line[0]], rest);
    }
  }

  lemma KeepsReturn(line: string)
    requires OneLine(line)
    ensures DropReturn(line) == line
  {
  }

  /** What is printed line by line is read line by line. */
  lemma {:induction false} LinesBack(lines: seq<string>)
    requires forall i :: 0 <= i < |lines| ==> OneLine(lines[i])
    ensures Lines(Unlines(lines)) == lines
    decreases |lines|
  {
    if lines != [] {
      hide LinesFrom, DropReturn;
      var rest := Unlines(lines[1..]);
      KeepsReturn(lines[0]);
      ReadsLine(lines[0], [], rest);
      assert [] + lines[0] == lines[0];
      LinesBack(lines[1..]);
      assert lines == [lines[0]] + lines[1..];
    }
  }

  // ---- key and value on a line

  function IndexOfEquals(s: string): (r: int)
    ensures -1 <= r < |s| && (r >= 0 ==> s[r] == '=')
  {
    if s == [] then -1
    else if s[0] == '=' then 0
    else var r := IndexOfEquals(s[1..]); if r < 0 then -1 else r + 1
  }

  lemma {:induction false} FirstEquals(s: string, i: nat)
    requires i < |s| && s[i] == '=' && '=' !in s[..i]
    ensures IndexOfEquals(s) == i
    decreases |s|
  {
    if i > 0 {
      assert s[0] in s[..i];
      forall c | c in s[1..][..i - 1] ensures c in s[..i] {
        var k :| 0 <= k < i - 1 && s[1..][k] == c;
        assert s[..i][k + 1] == c;
      }
      FirstEquals(s[1..], i - 1);
    }
  }

  const BOM: char := 65279 as char

  /** A key that survives a line: not empty, trimmed, without an equals sign, and nothing else by its first character. */
  predicate KeyOk(k: string)
  {
    k != [] && Tight(IsSpace, k) && '=' !in k && '\n' !in k && k[0] !in {'#', ';', '[', BOM}
  }

  /** A value that survives: trimmed, on one line, and not beginning or ending in a quote. */
  predicate ValOk(v: string) { Tight(IsSpace, v) && '\n' !in v && Tight(IsQuote, v) }

  /** Either no comment or one trimmed line with a comment mark in front. */
  predicate CommentOk(c: string) { c == [] || (Tight(IsSpace, c) && '\n' !in c && (c[0] == '#' || c[0] == ';')) }

  predicate NameOk(n: string) { '\n' !in n }

  function KeyLine(k: string, v: string): string { k + " = " + v }

  function HeadLine(n: string): string { ['['] + n + [']'] }

  /** The line of a key, trimmed: nothing is left behind the equals sign of a value of space alone. */
  lemma KeyLineTrimmed(k: string, a: string, m: string, b: string)
    requires KeyOk(k) && All(IsSpace, a) && All(IsSpace, b) && Tight(IsSpace, m)
    ensures TrimSpace(KeyLine(k, a + m + b)) == k + " =" + if m == [] then [] else " " + a + m
  {
    var line := KeyLine(k, a + m + b);
    var t := k + " =" + if m == [] then [] else " " + a + m;
    assert t[0] == k[0];
    if m == [] {
      assert line == [] + t + (" " + a + b);
      TrimIs(IsSpace, [], t, " " + a + b);
    } else {
      assert t[|t| - 1] == m[|m| - 1];
      assert line == [] + t + b;
      TrimIs(IsSpace, [], t, b);
    }
  }

  /** Cutting the trimmed line at its first equals sign gives the key, and the value without its space and quotes. */
  lemma KeyLineParts(k: string, v: string)
    requires KeyOk(k)
    ensures var t := TrimSpace(KeyLine(k, v));
            var i := IndexOfEquals(t);
            i == |k| + 1 && t != [] && t[0] == k[0] && TrimSpace(t[..i]) == k && TrimSpace(t[i + 1..]) == TrimSpace(v)
  {
    var a, b := TrimParts(IsSpace, v);
    var m := TrimSpace(v);
    KeyLineTrimmed(k, a, m, b);
    var t := TrimSpace(KeyLine(k, v));
    var i := |k| + 1;
    assert t[..i] == [] + k + [' '];
    assert t[i] == '=' && '=' !in t[..i];
    FirstEquals(t, i);
    TrimIs(IsSpace, [], k, [' ']);
    if m == [] {
      assert t[i + 1..] == [];
    } else {
      assert t[i + 1..] == (" " + a) + m + [];
      TrimIs(IsSpace, " " + a, m, []);
    }
  }

  /** What the reader makes of the text of a value. */
  function ValueOf(v: string): string { TrimBy(IsQuote, TrimSpace(v)) }

  /** Quotes around a value are cut off, however many and whichever; what is between them stays, with its space. */
  lemma QuotesGo(q: string, v: string, q': string)
    requires q != [] && q' != [] && All(IsQuote, q) && All(IsQuote, q') && Tight(IsQuote, v)
    ensures ValueOf(q + v + q') == v
  {
    var w := q + v + q';
    assert w[0] == q[0] && w[|w| - 1] == q'[|q'| - 1];
    TightStays(IsSpace, w);
    TrimIs(IsQuote, q, v, q');
  }

  /** A value is read as it stands if and only if it begins and ends in neither space nor a quote. */
  lemma ValueKeptIff(v: string)
    ensures ValueOf(v) == v <==> Tight(IsSpace, v) && Tight(IsQuote, v)
  {
    var a, b := TrimParts(IsSpace, v);
    var c, d := TrimParts(IsQuote, TrimSpace(v));
    if Tight(IsSpace, v) && Tight(IsQuote, v) {
      TightStays(IsSpace, v);
      TightStays(IsQuote, v);
    }
  }
}
