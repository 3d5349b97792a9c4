/**
 Reading a configuration line by line: which lines are refused, what each kind of line does, and what does not
 matter about a text: a byte-order mark, returns in front of line ends, a missing end of the last line.
 */
module IniRead {
  import opened Bytes
  import opened IniText
  import opened Ini
  import opened IniRun

  // ---- the text

  /** Lines that end in a line feed, with a return in front of it where `dos` says so. */
  function Ended(lines: seq<string>, dos: seq<bool>): string
    requires |lines| == |dos|
  {
    if lines == [] then [] else lines[0] + (if dos[0] then "\r\n" else "\n") + Ended(lines[1..], dos[1..])
  }

  /** Line ends of either kind give the same lines, and the last line needs none. */
  lemma {:induction false} EndsDoNotMatter(lines: seq<string>, dos: seq<bool>, last: string)
    requires |lines| == |dos| && OneLine(last) && forall i :: 0 <= i < |lines| ==> OneLine(lines[i])
    ensures Lines(Ended(lines, dos) + last) == lines + if last == [] then [] else [last]
    decreases |lines|
  {
    if lines == [] {
      assert [] + last == last;
      LastLine(last, []);
    } else {
      hide LinesFrom, OneLine, Ended;
      var more := Ended(lines[1..], dos[1..]) + last;
      EndedLine(lines[0], dos[0], more);
      EndedFirst(lines, dos, last);
      EndsDoNotMatter(lines[1..], dos[1..], last);
      assert lines == [lines[0]] + lines[1..];
    }
  }

  lemma EndedFirst(lines: seq<string>, dos: seq<bool>, last: string)
    requires |lines| == |dos| > 0
    ensures Ended(lines, dos) + last == lines[0] + (if dos[0] then "\r\n" else "\n") + (Ended(lines[1..], dos[1..]) + last)
  {
  }

  lemma EndedLine(line: string, dos: bool, more: string)
    requires OneLine(line)
    ensures Lines(line + (if dos then "\r\n" else "\n") + more) == [line] + Lines(more)
  {
    hide LinesFrom;
    var l := if dos then line + ['\r'] else line;
    assert line + (if dos then "\r\n" else "\n") + more == l + ['\n'] + more;
    ReadsLine(l, [], more);
    KeepsReturn(line);
    assert [] + l == l && (line + ['\r'])[..|line|] == line;
  }

  lemma {:induction false} LastLine(last: string, got: string)
    requires '\n' !in last && OneLine(got + last)
    ensures LinesFrom(last, got) == if got + last == [] then [] else [got + last]
    decreases |last|
  {
    if last == [] {
      assert got + last == got;
    } else {
      assert got + last == got + [last[0]] + last[1..];
      LastLine(last[1..], got + [last[0]]);
    }
  }

  /** A byte-order mark is dropped from the first line and only there. */
  lemma MarkGoes(r: Reader, line: string)
    requires line == [] || line[0] != BOM
    ensures ReadLine(r, [BOM] + line, true) == ReadLine(r, line, true) == ReadLine(r, line, false)
  {
    assert ([BOM] + line)[1..] == line;
  }

  // ---- one line

  /** A comment: it begins with one of the two marks. */
  predicate IsComment(t: string) { t != [] && t[0] in {'#', ';'} }

  /** A line is refused if and only if it opens a section without closing it, or has no key in front of an equals sign. */
  lemma RefusedIff(r: Reader, line: string)
    ensures var t := TrimSpace(line);
            ReadLine(r, line, false).Bad? <==>
              t != [] && !IsComment(t) && if t[0] == '[' then t[|t| - 1] != ']' else '=' !in t || t[0] == '='
  {
    hide TrimSpace;
    var t := TrimSpace(line);
    EqualsIn(t);
  }

  lemma {:induction false} EqualsIn(s: string)
    ensures IndexOfEquals(s) == -1 <==> '=' !in s
    ensures IndexOfEquals(s) == 0 <==> s != [] && s[0] == '='
    decreases |s|
  {
    if s != [] {
      EqualsIn(s[1..]);
      assert s == [s[0]] + s[1..];
    }
  }

  /** Where the next key goes. */
  function Open(r: Reader): Place { if r.current.Some? && r.current.value in r.doc.sections then r.current else None }

  /**
   A key line sets the key of the open section, over whatever it had, gives it the comment that was waiting, and
   changes nothing else.
   */
  lemma KeyLineSets(r: Reader, k: string, v: string, n: nat, at: Place, key: string)
    requires KeyOk(k)
    ensures var x := ReadFrom(r, [KeyLine(k, v)], n);
            && x.Good? && x.reader.current == r.current && x.reader.comment == []
            && ValueAt(x.reader.doc, at, key) == (if at == Open(r) && key == k then Some(ValueOf(v)) else ValueAt(r.doc, at, key))
            && CommentAt(x.reader.doc, at, key) == (if at == Open(r) && key == k then r.comment else CommentAt(r.doc, at, key))
            && KeysAt(x.reader.doc, at) == KeysAt(r.doc, at) + (if at == Open(r) then [k] else [])
            && (Exists(x.reader.doc, at) <==> Exists(r.doc, at)) && HeadAt(x.reader.doc, at) == HeadAt(r.doc, at)
            && x.reader.doc.sectionkeys == r.doc.sectionkeys
  {
    hide KeyLine, ValueOf;
    ReadValue(r, k, v, n);
  }

  /**
   A section line opens the section for the keys that follow. A new one gets the comment that was waiting; for one
   that is there already the comment is lost, and its keys stay.
   */
  lemma HeadLineOpens(r: Reader, name: string, n: nat, at: Place, key: string)
    requires NameOk(name)
    ensures var x := ReadFrom(r, [HeadLine(name)], n);
            && x.Good? && Open(x.reader) == Some(name) && x.reader.comment == []
            && ValueAt(x.reader.doc, at, key) == ValueAt(r.doc, at, key)
            && CommentAt(x.reader.doc, at, key) == CommentAt(r.doc, at, key) && KeysAt(x.reader.doc, at) == KeysAt(r.doc, at)
            && (Exists(x.reader.doc, at) <==> Exists(r.doc, at) || at == Some(name))
            && HeadAt(x.reader.doc, at) == (if at == Some(name) && name !in r.doc.sections then r.comment else HeadAt(r.doc, at))
            && x.reader.doc.sectionkeys == r.doc.sectionkeys + if name in r.doc.sections then [] else [name]
  {
    hide HeadLine;
    ReadHeadLine(r, name, n);
  }

  /** Comment lines one after the other wait as one comment, without their line ends; blank lines do nothing. */
  lemma {:induction false} CommentsJoin(r: Reader, cs: seq<string>, n: nat)
    requires forall i :: 0 <= i < |cs| ==> CommentOk(cs[i])
    ensures ReadFrom(r, cs, n) == Good(r.(comment := r.comment + Joined(cs)))
    decreases |cs|
  {
    hide CommentOk, ReadLine;
    if cs == [] {
      assert r.comment + [] == r.comment;
      ReadNothing(r, n);
    } else {
      assert cs == [cs[0]] + cs[1..];
      ReadAppend(r, [cs[0]], cs[1..], n);
      if cs[0] == [] {
        ReadBlank(r, n);
        CommentsJoin(r, cs[1..], n + 1);
        assert [] + Joined(cs[1..]) == Joined(cs[1..]);
      } else {
        ReadComment(r, cs[0], n);
        CommentsJoin(r.(comment := r.comment + cs[0]), cs[1..], n + 1);
        assert r.comment + cs[0] + Joined(cs[1..]) == r.comment + (cs[0] + Joined(cs[1..]));
      }
    }
  }

  function Joined(cs: seq<string>): string { if cs == [] then [] else cs[0] + Joined(cs[1..]) }
}
