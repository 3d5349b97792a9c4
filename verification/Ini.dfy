/**
 The configuration file: sections of keys with values and comments, printed by `Save` and read back by
 `readIniFile`. Whatever a run of changes has made of it, as long as its strings survive a line, reading what
 was printed gives the same values and comments.
 */
module Ini {
  import opened Bytes
  import opened IniText

  type Text = map<string, string>

  /** Values and comments by key, and the keys in the order of their first appearance. */
  datatype Section = Section(name: string, values: Text, comment: string, comments: Text, keys: seq<string>)

  datatype Doc = Doc(top: Section, sections: map<string, Section>, sectionkeys: seq<string>)

  const EMPTY := Section([], map[], [], map[], [])
  const NOTHING := Doc(EMPTY, map[], [])

  /** The comment of a key, empty if it has none. */
  function Comment(s: Section, k: string): string { if k in s.comments then s.comments[k] else [] }

  // ---- changes

  function Marked(comment: string): string { if comment == [] then [] else ['#'] + comment }

  /** `configSection.set`: an empty comment leaves the comment of an existing key. */
  function SetKey(s: Section, key: string, val: string, comment: string): Section
  {
    var c := Marked(comment);
    if key in s.values then
      s.(values := s.values[key := val], comments := if c == [] then s.comments else s.comments[key := c])
    else s.(values := s.values[key := val], comments := s.comments[key := c], keys := s.keys + [key])
  }

  function SetTop(d: Doc, key: string, val: string, comment: string): Doc { d.(top := SetKey(d.top, key, val, comment)) }

  function SetSection(d: Doc, section: string, key: string, val: string, comment: string): Doc
  {
    if section in d.sections then
      d.(sections := d.sections[section := SetKey(d.sections[section], key, val, comment)])
    else
      var c := Marked(comment);
      d.(sections := d.sections[section := Section(section, map[key := val], [], if c == [] then map[] else map[key := c], [key])],
         sectionkeys := d.sectionkeys + [section])
  }

  /** The section goes; its name stays in the list of names. */
  function DropSection(d: Doc, section: string): Doc { d.(sections := d.sections - {section}) }

  // ---- printing

  function PrintKey(s: Section, k: string): seq<string>
  {
    if k !in s.values then []
    else (if Comment(s, k) == [] then [] else [Comment(s, k)]) + [KeyLine(k, s.values[k])]
  }

  function PrintKeys(s: Section, ks: seq<string>): seq<string>
  {
    if ks == [] then [] else PrintKeys(s, ks[..|ks| - 1]) + PrintKey(s, ks[|ks| - 1])
  }

  function PrintSection(s: Section): seq<string>
  {
    [[]] + (if s.comment == [] then [] else [s.comment]) + [HeadLine(s.name)] + PrintKeys(s, s.keys)
  }

  function PrintSections(d: Doc, names: seq<string>): seq<string>
  {
    if names == [] then []
    else
      var n := names[|names| - 1];
      PrintSections(d, names[..|names| - 1]) + if n in d.sections then PrintSection(d.sections[n]) else []
  }

  /** What `Save` writes. */
  function Print(d: Doc): seq<string> { PrintKeys(d.top, d.top.keys) + PrintSections(d, d.sectionkeys) }

  // ---- reading

  /** The document so far, the section that is open, and the comment lines that are waiting for their owner. */
  datatype Reader = Reader(doc: Doc, current: Option<string>, comment: string)

  datatype Read = Good(reader: Reader) | Bad

  function AddKey(s: Section, key: string, val: string, comment: string): Section
  {
    s.(values := s.values[key := val], comments := s.comments[key := comment], keys := s.keys + [key])
  }

  /** The section that keys go to. */
  function Current(r: Reader): Section
  {
    if r.current.Some? && r.current.value in r.doc.sections then r.doc.sections[r.current.value] else r.doc.top
  }

  function PutCurrent(r: Reader, s: Section): Doc
  {
    if r.current.Some? && r.current.value in r.doc.sections then r.doc.(sections := r.doc.sections[r.current.value := s])
    else r.doc.(top := s)
  }

  function OpenSection(r: Reader, name: string): Reader
  {
    if name in r.doc.sections then r.(current := Some(name), comment := [])
    else
      Reader(r.doc.(sections := r.doc.sections[name := EMPTY.(name := name, comment := r.comment)],
                    sectionkeys := r.doc.sectionkeys + [name]), Some(name), [])
  }

  /** A line without its surrounding space. */
  function ReadTrimmed(r: Reader, t: string): Read
  {
    if t == [] then Good(r)
    else if t[0] == '#' || t[0] == ';' then Good(r.(comment := r.comment + t))
    else if t[0] == '[' then
      if t[|t| - 1] != ']' then Bad else Good(OpenSection(r, t[1..|t| - 1]))
    else
      var i := IndexOfEquals(t);
      if i <= 0 then Bad
      else
        var s := AddKey(Current(r), TrimSpace(t[..i]), ValueOf(t[i + 1..]), r.comment);
        Good(Reader(PutCurrent(r, s), r.current, []))
  }

  /** A byte-order mark in front of the first line is dropped. */
  function ReadLine(r: Reader, line: string, first: bool): Read
  {
    ReadTrimmed(r, TrimSpace(if first && line != [] && line[0] == BOM then line[1..] else line))
  }

  function ReadFrom(r: Reader, lines: seq<string>, n: nat): Read
    decreases |lines|
  {
    if lines == [] then Good(r)
    else
      var x := ReadLine(r, lines[0], n == 0);
      if x.Bad? then Bad else ReadFrom(x.reader, lines[1..], n + 1)
  }

  const START := Reader(NOTHING, None, [])

  function ReadText(text: string): Read { ReadFrom(START, Lines(text), 0) }

  lemma {:induction false} ReadAppend(r: Reader, a: seq<string>, b: seq<string>, n: nat)
    ensures ReadFrom(r, a + b, n)
         == var x := ReadFrom(r, a, n); if x.Bad? then Bad else ReadFrom(x.reader, b, n + |a|)
    decreases |a|
  {
    hide ReadLine;
    if a == [] {
      assert a + b == b;
    } else {
      assert (a + b)[1..] == a[1..] + b;
      var x := ReadLine(r, a[0], n == 0);
      if x.Good? { ReadAppend(x.reader, a[1..], b, n + 1); }
    }
  }

  lemma ReadNothing(r: Reader, n: nat)
    ensures ReadFrom(r, [], n) == Good(r)
  {
  }

  lemma ReadOne(r: Reader, line: string, n: nat)
    ensures ReadFrom(r, [line], n) == ReadLine(r, line, n == 0)
  {
    hide ReadLine;
    assert [line][1..] == [];
  }

  // ---- what is printed can be read

  predicate SectionOk(s: Section)
  {
    && NameOk(s.name) && CommentOk(s.comment)
    && (forall k :: k in s.values ==> KeyOk(k) && ValOk(s.values[k]) && CommentOk(Comment(s, k)))
  }

  predicate DocOk(d: Doc)
  {
    SectionOk(d.top) && forall n :: n in d.sections ==> SectionOk(d.sections[n])
  }

  /** A comment line waits for its owner. */
  lemma ReadComment(r: Reader, c: string, n: nat)
    requires CommentOk(c) && c != []
    ensures ReadFrom(r, [c], n) == Good(r.(comment := r.comment + c))
  {
    ReadOne(r, c, n);
    TightStays(IsSpace, c);
  }

  /** A line `k = v` gives the open section the key with the value that its text stands for. */
  lemma ReadValue(r: Reader, k: string, v: string, n: nat)
    requires KeyOk(k)
    ensures ReadFrom(r, [KeyLine(k, v)], n)
         == Good(Reader(PutCurrent(r, AddKey(Current(r), k, ValueOf(v), r.comment)), r.current, []))
  {
    hide AddKey, PutCurrent, Current;
    ReadOne(r, KeyLine(k, v), n);
    assert KeyLine(k, v)[0] == k[0];
    KeyLineParts(k, v);
  }

  /** A line `k = "v"`, in quotes of either kind, gives the key the value between the quotes. */
  lemma ReadQuoted(r: Reader, k: string, q: char, v: string, n: nat)
    requires KeyOk(k) && IsQuote(q) && Tight(IsQuote, v)
    ensures ReadFrom(r, [KeyLine(k, [q] + v + [q])], n)
         == Good(Reader(PutCurrent(r, AddKey(Current(r), k, v, r.comment)), r.current, []))
  {
    hide AddKey, PutCurrent, Current;
    ReadValue(r, k, [q] + v + [q], n);
    QuotesGo([q], v, [q]);
  }

  lemma ReadKeyLine(r: Reader, k: string, v: string, n: nat)
    requires KeyOk(k) && ValOk(v)
    ensures ReadFrom(r, [KeyLine(k, v)], n) == Good(Reader(PutCurrent(r, AddKey(Current(r), k, v, r.comment)), r.current, []))
  {
    hide AddKey, PutCurrent, Current;
    ReadValue(r, k, v, n);
    ValueKeptIff(v);
  }

  lemma ReadHeadLine(r: Reader, name: string, n: nat)
    requires NameOk(name)
    ensures ReadFrom(r, [HeadLine(name)], n) == Good(OpenSection(r, name))
  {
    hide OpenSection;
    var t := HeadLine(name);
    ReadOne(r, t, n);
    assert t[0] == '[' && t[|t| - 1] == ']' && t[1..|t| - 1] == name;
    TightStays(IsSpace, t);
  }

  lemma ReadBlank(r: Reader, n: nat)
    ensures ReadFrom(r, [[]], n) == Good(r)
  {
    ReadOne(r, [], n);
  }

  /** The section that reading the keys `ks` of `s` makes out of `base`. */
  function Show(base: Section, s: Section, ks: seq<string>): Section
  {
    if ks == [] then base
    else
      var b, k := Show(base, s, ks[..|ks| - 1]), ks[|ks| - 1];
      if k in s.values then AddKey(b, k, s.values[k], Comment(s, k)) else b
  }

  lemma ReadKey(r: Reader, s: Section, k: string, n: nat)
    requires SectionOk(s) && r.comment == []
    ensures ReadFrom(r, PrintKey(s, k), n)
         == Good(if k in s.values then r.(doc := PutCurrent(r, AddKey(Current(r), k, s.values[k], Comment(s, k)))) else r)
  {
    hide AddKey, PutCurrent, Current;
    if k in s.values {
      var c, line := Comment(s, k), KeyLine(k, s.values[k]);
      if c == [] {
        assert PrintKey(s, k) == [line];
        ReadKeyLine(r, k, s.values[k], n);
      } else {
        ReadAppend(r, [c], [line], n);
        ReadComment(r, c, n);
        assert [] + c == c;
        ReadKeyLine(r.(comment := c), k, s.values[k], n + 1);
        SameCurrent(r, c);
      }
    }
  }

  lemma SameCurrent(r: Reader, c: string)
    ensures Current(r.(comment := c)) == Current(r) && forall s :: PutCurrent(r.(comment := c), s) == PutCurrent(r, s)
  {
  }

  lemma PutTwice(r: Reader, s: Section, s': Section)
    ensures var r' := r.(doc := PutCurrent(r, s)); Current(r') == s && PutCurrent(r', s') == PutCurrent(r, s')
    ensures PutCurrent(r, Current(r)) == r.doc
  {
    var r' := r.(doc := PutCurrent(r, s));
    if r.current.Some? && r.current.value in r.doc.sections {
      assert r.doc.sections[r.current.value := s][r.current.value := s'] == r.doc.sections[r.current.value := s'];
      assert r.doc.sections[r.current.value := Current(r)] == r.doc.sections;
    }
  }

  /** Reading the printed keys of a section. */
  lemma {:induction false} ReadKeys(r: Reader, s: Section, ks: seq<string>, n: nat)
    requires SectionOk(s) && r.comment == []
    ensures ReadFrom(r, PrintKeys(s, ks), n) == Good(r.(doc := PutCurrent(r, Show(Current(r), s, ks))))
    decreases |ks|
  {
    hide AddKey, PutCurrent, Current, PrintKey, SectionOk;
    if ks == [] {
      PutTwice(r, Current(r), Current(r));
    } else {
      var t, k := ks[..|ks| - 1], ks[|ks| - 1];
      ReadKeys(r, s, t, n);
      var b := Show(Current(r), s, t);
      var r1 := r.(doc := PutCurrent(r, b));
      ReadAppend(r, PrintKeys(s, t), PrintKey(s, k), n);
      ReadKey(r1, s, k, n + |PrintKeys(s, t)|);
      if k in s.values { PutTwice(r, b, AddKey(b, k, s.values[k], Comment(s, k))); }
    }
  }

  function Base(d: Doc, s: Section): Section
  {
    if s.name in d.sections then d.sections[s.name] else EMPTY.(name := s.name, comment := s.comment)
  }

  /** The document after reading the printed section `s`. */
  function ShowSection(d: Doc, s: Section): Doc
  {
    d.(sections := d.sections[s.name := Show(Base(d, s), s, s.keys)],
       sectionkeys := if s.name in d.sections then d.sectionkeys else d.sectionkeys + [s.name])
  }

  /** Reading the lines in front of a section's keys. */
  lemma ReadHead(r: Reader, s: Section, n: nat)
    requires SectionOk(s) && r.comment == []
    ensures var head := [[]] + (if s.comment == [] then [] else [s.comment]) + [HeadLine(s.name)];
            ReadFrom(r, head, n) == Good(OpenSection(r.(comment := s.comment), s.name))
  {
    hide OpenSection, HeadLine;
    var c := if s.comment == [] then [] else [s.comment];
    var r1 := r.(comment := s.comment);
    ReadAppend(r, [[]] + c, [HeadLine(s.name)], n);
    ReadAppend(r, [[]], c, n);
    ReadBlank(r, n);
    if s.comment != [] {
      ReadComment(r, s.comment, n + 1);
      assert [] + s.comment == s.comment;
    } else {
      assert r1 == r;
    }
    ReadHeadLine(r1, s.name, n + |[[]] + c|);
  }

  lemma OpenedIs(r: Reader, s: Section)
    requires r.comment == s.comment
    ensures var r1 := OpenSection(r, s.name);
            && r1.comment == [] && r1.current == Some(s.name) && Current(r1) == Base(r.doc, s)
            && PutCurrent(r1, Show(Base(r.doc, s), s, s.keys)) == ShowSection(r.doc, s)
  {
    hide Show;
    if s.name !in r.doc.sections {
      var sh := Show(Base(r.doc, s), s, s.keys);
      assert r.doc.sections[s.name := Base(r.doc, s)][s.name := sh] == r.doc.sections[s.name := sh];
    }
  }

  lemma ReadSection(r: Reader, s: Section, n: nat)
    requires SectionOk(s) && r.comment == []
    ensures ReadFrom(r, PrintSection(s), n) == Good(Reader(ShowSection(r.doc, s), Some(s.name), []))
  {
    hide SectionOk, OpenSection, HeadLine, PutCurrent, Current, PrintKeys, ReadFrom, Show;
    var head := [[]] + (if s.comment == [] then [] else [s.comment]) + [HeadLine(s.name)];
    ReadAppend(r, head, PrintKeys(s, s.keys), n);
    ReadHead(r, s, n);
    OpenedIs(r.(comment := s.comment), s);
    ReadKeys(OpenSection(r.(comment := s.comment), s.name), s, s.keys, n + |head|);
  }

  function ShowSections(d0: Doc, d: Doc, names: seq<string>): Doc
  {
    if names == [] then d0
    else
      var d1, n := ShowSections(d0, d, names[..|names| - 1]), names[|names| - 1];
      if n in d.sections then ShowSection(d1, d.sections[n]) else d1
  }

  lemma {:induction false} ReadSections(r: Reader, d: Doc, names: seq<string>, n: nat)
    requires DocOk(d) && r.comment == []
    ensures var x := ReadFrom(r, PrintSections(d, names), n);
            x.Good? && x.reader.doc == ShowSections(r.doc, d, names) && x.reader.comment == []
    decreases |names|
  {
    hide PrintSection, ShowSection, SectionOk, ReadFrom;
    if names == [] {
      ReadNothing(r, n);
    } else {
      var t, m := names[..|names| - 1], names[|names| - 1];
      ReadSections(r, d, t, n);
      var lines := PrintSections(d, t);
      if m in d.sections {
        ReadAppend(r, lines, PrintSection(d.sections[m]), n);
        ReadSection(ReadFrom(r, lines, n).reader, d.sections[m], n + |lines|);
      } else {
        assert lines + [] == lines;
      }
    }
  }

  /** The document that reading the printed lines of `d` makes. */
  function ShowDoc(d: Doc): Doc { ShowSections(NOTHING.(top := Show(EMPTY, d.top, d.top.keys)), d, d.sectionkeys) }

  lemma ReadPrinted(d: Doc)
    requires DocOk(d)
    ensures var x := ReadFrom(START, Print(d), 0); x.Good? && x.reader.doc == ShowDoc(d)
  {
    hide PrintKeys, PrintSections, Show, ShowSections, SectionOk, ReadFrom;
    var keys := PrintKeys(d.top, d.top.keys);
    ReadAppend(START, keys, PrintSections(d, d.sectionkeys), 0);
    ReadKeys(START, d.top, d.top.keys, 0);
    ReadSections(START.(doc := NOTHING.(top := Show(EMPTY, d.top, d.top.keys))), d, d.sectionkeys, |keys|);
  }

  // ---- and is what was printed

  /** The same values and the same comments on them. */
  predicate SameSection(a: Section, b: Section)
  {
    a.values == b.values && a.comment == b.comment && forall k :: k in a.values ==> Comment(a, k) == Comment(b, k)
  }

  predicate SameDoc(a: Doc, b: Doc)
  {
    && SameSection(a.top.(comment := []), b.top.(comment := []))
    && a.sections.Keys == b.sections.Keys
    && forall n :: n in a.sections && n in b.sections ==> SameSection(a.sections[n], b.sections[n])
  }

  /** Every value has its key in the list, and every section its name. Changes and reading keep this. */
  predicate Listed(d: Doc)
  {
    && KeysListed(d.top)
    && (forall n :: n in d.sections ==> n in d.sectionkeys && d.sections[n].name == n && KeysListed(d.sections[n]))
  }

  predicate KeysListed(s: Section) { forall k :: k in s.values ==> k in s.keys }

  lemma {:induction false} ShowIs(base: Section, s: Section, ks: seq<string>, k: string)
    ensures Show(base, s, ks).name == base.name && Show(base, s, ks).comment == base.comment
    ensures k in ks && k in s.values ==>
              var r := Show(base, s, ks); k in r.values && r.values[k] == s.values[k] && Comment(r, k) == Comment(s, k)
    ensures !(k in ks && k in s.values) ==>
              var r := Show(base, s, ks);
              (k in r.values <==> k in base.values) && (k in base.values ==> r.values[k] == base.values[k])
              && Comment(r, k) == Comment(base, k)
    decreases |ks|
  {
    if ks != [] { ShowIs(base, s, ks[..|ks| - 1], k); }
  }

  /** Reading all keys of a section into an empty one, or into one that has them already, gives the section. */
  lemma ShowAll(base: Section, s: Section)
    requires KeysListed(s) && base.comment == s.comment && (base.values == map[] || SameSection(base, s))
    ensures SameSection(Show(base, s, s.keys), s)
  {
    hide Show, Comment;
    ShowIs(base, s, s.keys, []);
    forall k ensures SameAt(Show(base, s, s.keys), s, k) { ShowAt(base, s, k); }
    SameEverywhere(Show(base, s, s.keys), s);
  }

  predicate SameAt(a: Section, b: Section, k: string)
  {
    (k in a.values <==> k in b.values) && (k in a.values ==> a.values[k] == b.values[k] && Comment(a, k) == Comment(b, k))
  }

  lemma SameEverywhere(a: Section, b: Section)
    requires forall k :: SameAt(a, b, k)
    ensures a.values == b.values && forall k :: k in a.values ==> Comment(a, k) == Comment(b, k)
  {
    forall k ensures k in a.values <==> k in b.values
             ensures k in a.values && k in b.values ==> a.values[k] == b.values[k] && Comment(a, k) == Comment(b, k) {
      assert SameAt(a, b, k);
    }
  }

  lemma ShowAt(base: Section, s: Section, k: string)
    requires KeysListed(s) && (base.values == map[] || base.values == s.values)
    ensures SameAt(Show(base, s, s.keys), s, k)
  {
    hide Show, Comment;
    ShowIs(base, s, s.keys, k);
  }

  /** The sections named in `names` have been read. */
  ghost predicate Shown(d1: Doc, d: Doc, names: seq<string>)
  {
    && (forall n :: n in d1.sections <==> n in names && n in d.sections)
    && (forall n :: n in d1.sections ==> SameSection(d1.sections[n], d.sections[n]))
  }

  lemma {:induction false} SectionsShown(d0: Doc, d: Doc, names: seq<string>)
    requires Listed(d) && d0.sections == map[]
    ensures Shown(ShowSections(d0, d, names), d, names) && ShowSections(d0, d, names).top == d0.top
    decreases |names|
  {
    hide Show, SameSection;
    if names != [] {
      var t, m := names[..|names| - 1], names[|names| - 1];
      SectionsShown(d0, d, t);
      var d1 := ShowSections(d0, d, t);
      assert names == t + [m];
      if m in d.sections {
        BaseIs(d1, d.sections[m]);
        ShowAll(Base(d1, d.sections[m]), d.sections[m]);
      }
    }
  }

  lemma BaseIs(d: Doc, s: Section)
    requires s.name in d.sections ==> SameSection(d.sections[s.name], s)
    ensures Base(d, s).comment == s.comment && (Base(d, s).values == map[] || SameSection(Base(d, s), s))
  {
  }

  lemma PrintKeyLines(s: Section, k: string)
    requires SectionOk(s)
    ensures forall i :: 0 <= i < |PrintKey(s, k)| ==> OneLine(PrintKey(s, k)[i])
  {
    if k in s.values {
      var c, v := Comment(s, k), s.values[k];
      assert OneLine(c);
      var line := KeyLine(k, v);
      assert line[|line| - 1] == if v == [] then ' ' else v[|v| - 1];
      assert OneLine(line);
    }
  }

  lemma {:induction false} PrintKeysLines(s: Section, ks: seq<string>)
    requires SectionOk(s)
    ensures forall i :: 0 <= i < |PrintKeys(s, ks)| ==> OneLine(PrintKeys(s, ks)[i])
    decreases |ks|
  {
    hide OneLine, PrintKey, SectionOk;
    if ks != [] {
      PrintKeysLines(s, ks[..|ks| - 1]);
      PrintKeyLines(s, ks[|ks| - 1]);
    }
  }

  lemma PrintSectionLines(s: Section)
    requires SectionOk(s)
    ensures forall i :: 0 <= i < |PrintSection(s)| ==> OneLine(PrintSection(s)[i])
  {
    hide PrintKeys;
    PrintKeysLines(s, s.keys);
    assert OneLine(s.comment) && OneLine([]) && OneLine(HeadLine(s.name));
  }

  lemma {:induction false} PrintSectionsLines(d: Doc, names: seq<string>)
    requires DocOk(d)
    ensures forall i :: 0 <= i < |PrintSections(d, names)| ==> OneLine(PrintSections(d, names)[i])
    decreases |names|
  {
    hide OneLine, PrintSection, SectionOk;
    if names != [] {
      PrintSectionsLines(d, names[..|names| - 1]);
      if names[|names| - 1] in d.sections { PrintSectionLines(d.sections[names[|names| - 1]]); }
    }
  }

  /** Reading the text that was saved gives the document that its lines show. */
  lemma LoadsBack(d: Doc)
    requires DocOk(d)
    ensures var x := ReadText(Unlines(Print(d))); x.Good? && x.reader.doc == ShowDoc(d)
  {
    hide OneLine, PrintKeys, PrintSections, Show, ShowSections, SectionOk, ReadFrom;
    PrintKeysLines(d.top, d.top.keys);
    PrintSectionsLines(d, d.sectionkeys);
    LinesBack(Print(d));
    ReadPrinted(d);
  }

  /** Reading what was printed gives the same values and comments, section by section. */
  lemma RoundTrip(d: Doc)
    requires DocOk(d) && Listed(d)
    ensures var x := ReadText(Unlines(Print(d))); x.Good? && SameDoc(x.reader.doc, d)
  {
    hide PrintKeys, PrintSections, Show, ShowSections, SectionOk, ReadFrom, SameSection;
    LoadsBack(d);
    SectionsShown(NOTHING.(top := Show(EMPTY, d.top, d.top.keys)), d, d.sectionkeys);
    TopShown(d.top);
  }

  lemma TopShown(s: Section)
    requires KeysListed(s)
    ensures SameSection(Show(EMPTY, s, s.keys).(comment := []), s.(comment := []))
  {
    hide Show, Comment;
    var a, b := Show(EMPTY, s, s.keys), s;
    forall k ensures SameAt(a, b, k) { ShowAt(EMPTY, s, k); }
    SameEverywhere(a, b);
    forall k ensures Comment(a.(comment := []), k) == Comment(a, k) && Comment(b.(comment := []), k) == Comment(b, k) {
      CommentSame(a, k);
      CommentSame(b, k);
    }
  }

  lemma CommentSame(s: Section, k: string)
    ensures Comment(s.(comment := []), k) == Comment(s, k)
  {
  }

  // ---- the configuration object

  datatype Change = Set(key: string, val: string, comment: string)
                  | SectionSet(section: string, key: string, val: string, comment: string)
                  | Delete(section: string)

  function Apply(d: Doc, c: Change): Doc
  {
    match c
    case Set(k, v, m) => SetTop(d, k, v, m)
    case SectionSet(s, k, v, m) => SetSection(d, s, k, v, m)
    case Delete(s) => DropSection(d, s)
  }

  /** The strings of a change survive a line. */
  predicate ChangeOk(c: Change)
  {
    match c
    case Set(k, v, m) => KeyOk(k) && ValOk(v) && CommentOk(Marked(m))
    case SectionSet(s, k, v, m) => NameOk(s) && KeyOk(k) && ValOk(v) && CommentOk(Marked(m))
    case Delete(s) => true
  }

  lemma SetKeyKeeps(s: Section, k: string, v: string, m: string)
    requires SectionOk(s) && KeysListed(s) && KeyOk(k) && ValOk(v) && CommentOk(Marked(m))
    ensures SectionOk(SetKey(s, k, v, m)) && KeysListed(SetKey(s, k, v, m))
  {
    var s' := SetKey(s, k, v, m);
    forall j | j in s'.values ensures KeyOk(j) && ValOk(s'.values[j]) && CommentOk(Comment(s', j)) {
      if j != k { assert j in s.values; }
    }
    forall j | j in s'.values ensures j in s'.keys { if j != k { assert j in s.values; } }
  }

  lemma ApplyKeeps(d: Doc, c: Change)
    requires DocOk(d) && Listed(d) && ChangeOk(c)
    ensures DocOk(Apply(d, c)) && Listed(Apply(d, c))
  {
    hide SectionOk, KeyOk, ValOk, CommentOk, NameOk, SetKey;
    match c
    case Set(k, v, m) => SetKeyKeeps(d.top, k, v, m);
    case SectionSet(n, k, v, m) =>
      if n in d.sections {
        SetKeyKeeps(d.sections[n], k, v, m);
        SetKeyName(d.sections[n], k, v, m);
      } else {
        NewSectionOk(n, k, v, m);
      }
    case Delete(n) =>
  }

  lemma SetKeyName(s: Section, k: string, v: string, m: string)
    ensures SetKey(s, k, v, m).name == s.name
  {
  }

  lemma NewSectionOk(n: string, k: string, v: string, m: string)
    requires NameOk(n) && KeyOk(k) && ValOk(v) && CommentOk(Marked(m))
    ensures var s := Section(n, map[k := v], [], if Marked(m) == [] then map[] else map[k := Marked(m)], [k]);
            SectionOk(s) && KeysListed(s)
  {
  }

  function ApplyAll(d: Doc, cs: seq<Change>): Doc
  {
    if cs == [] then d else Apply(ApplyAll(d, cs[..|cs| - 1]), cs[|cs| - 1])
  }

  /** After any run of changes with such strings, saving and loading gives the same values and comments. */
  lemma {:induction false} RunRoundTrip(d: Doc, cs: seq<Change>)
    requires DocOk(d) && Listed(d) && forall i :: 0 <= i < |cs| ==> ChangeOk(cs[i])
    ensures DocOk(ApplyAll(d, cs)) && Listed(ApplyAll(d, cs))
    ensures var x := ReadText(Unlines(Print(ApplyAll(d, cs)))); x.Good? && SameDoc(x.reader.doc, ApplyAll(d, cs))
    decreases |cs|
  {
    hide DocOk, Listed, Apply, ReadText, Print, SameDoc, ChangeOk;
    if cs != [] {
      RunRoundTrip(d, cs[..|cs| - 1]);
      ApplyKeeps(ApplyAll(d, cs[..|cs| - 1]), cs[|cs| - 1]);
    }
    RoundTrip(ApplyAll(d, cs));
  }

  /** Whatever text is read, every value has its key and every section its name in the lists. */
  lemma LineListed(r: Reader, line: string, first: bool)
    requires Listed(r.doc)
    ensures ReadLine(r, line, first).Good? ==> Listed(ReadLine(r, line, first).reader.doc)
  {
    hide TrimSpace, ValueOf, IndexOfEquals;
  }

  lemma {:induction false} ReadListed(r: Reader, lines: seq<string>, n: nat)
    requires Listed(r.doc)
    ensures ReadFrom(r, lines, n).Good? ==> Listed(ReadFrom(r, lines, n).reader.doc)
    decreases |lines|
  {
    hide ReadLine, Listed;
    if lines != [] {
      LineListed(r, lines[0], n == 0);
      var x := ReadLine(r, lines[0], n == 0);
      if x.Good? { ReadListed(x.reader, lines[1..], n + 1); }
    }
  }

  /**
   Around the value that is set: a comment replaces the one before, none leaves it to a key that had a value, other
   keys keep theirs, and a new key goes to the end of the list.
   */
  ghost predicate SetRight(s: Section, r: Section, key: string, comment: string)
  {
    && r.name == s.name && r.comment == s.comment
    && r.keys == (if key in s.values then s.keys else s.keys + [key])
    && Comment(r, key) == (if comment != [] then "#" + comment else if key in s.values then Comment(s, key) else [])
    && forall k :: k != key ==> Comment(r, k) == Comment(s, k)
  }

  class Config {
    var top: Section
    var sections: map<string, Section>
    var sectionkeys: seq<string>

    constructor ()
      ensures AsDoc() == NOTHING
    {
      top, sections, sectionkeys := EMPTY, map[], [];
    }

    function AsDoc(): Doc
      reads this
    {
      Doc(top, sections, sectionkeys)
    }

    method Set(key: string, val: string, comment: string)
      modifies this
      ensures AsDoc() == SetTop(old(AsDoc()), key, val, comment)
      ensures top.values == old(top).values[key := val] && sections == old(sections) && sectionkeys == old(sectionkeys)
      ensures SetRight(old(top), top, key, comment)
    {
      top := SetIn(top, key, val, comment);
    }

    method SetIn(s: Section, key: string, val: string, comment: string) returns (r: Section)
      ensures r == SetKey(s, key, val, comment)
      ensures r.values == s.values[key := val] && SetRight(s, r, key, comment)
    {
      var c := comment;
      if c != [] { c := ['#'] + c; }
      r := s;
      if key in r.values {
        r := r.(values := r.values[key := val]);
        if c != [] { r := r.(comments := r.comments[key := c]); }
      } else {
        r := r.(values := r.values[key := val]);
        r := r.(comments := r.comments[key := c]);
        r := r.(keys := r.keys + [key]);
      }
    }

    method SectionSet(section: string, key: string, val: string, comment: string)
      modifies this
      ensures AsDoc() == SetSection(old(AsDoc()), section, key, val, comment)
      ensures top == old(top) && sections.Keys == old(sections).Keys + {section}
      ensures forall n :: n in sections && n != section ==> sections[n] == old(sections)[n]
      ensures var was := if section in old(sections) then old(sections)[section] else EMPTY.(name := section);
              sections[section].values == was.values[key := val] && SetRight(was, sections[section], key, comment)
      ensures sectionkeys == old(sectionkeys) + if section in old(sections) then [] else [section]
    {
      if section in sections {
        var s := SetIn(sections[section], key, val, comment);
        sections := sections[section := s];
      } else {
        var comments := map[];
        if comment != [] { comments := comments[key := ['#'] + comment]; }
        sections := sections[section := Section(section, map[key := val], [], comments, [key])];
        sectionkeys := sectionkeys + [section];
      }
    }

    method DelSection(section: string)
      modifies this
      ensures AsDoc() == DropSection(old(AsDoc()), section)
      ensures section !in sections && forall n :: n in old(sections) && n != section ==> n in sections && sections[n] == old(sections)[n]
    {
      sections := sections - {section};
    }

    /** The lines of one section's keys. */
    method SaveKeys(s: Section) returns (lines: seq<string>)
      ensures lines == PrintKeys(s, s.keys)
    {
      lines := [];
      for i := 0 to |s.keys|
        invariant lines == PrintKeys(s, s.keys[..i])
      {
        var key := s.keys[i];
        assert s.keys[..i + 1][..i] == s.keys[..i];
        if key in s.values {
          if key in s.comments && s.comments[key] != [] { lines := lines + [s.comments[key]]; }
          lines := lines + [key + " = " + s.values[key]];
        }
      }
      assert s.keys[..|s.keys|] == s.keys;
    }

    method SaveSection(sec: Section) returns (lines: seq<string>)
      ensures lines == PrintSection(sec)
    {
      hide PrintKeys;
      lines := [[]];
      if sec.comment != [] { lines := lines + [sec.comment]; }
      lines := lines + [['['] + sec.name + [']']];
      var keys := SaveKeys(sec);
      lines := lines + keys;
    }

    /** Writes the file. */
    method Save() returns (text: string)
      ensures text == Unlines(Print(AsDoc()))
    {
      hide PrintSection, PrintKeys;
      var lines := SaveKeys(top);
      ghost var head := lines;
      for i := 0 to |sectionkeys|
        invariant lines == head + PrintSections(AsDoc(), sectionkeys[..i])
      {
        assert sectionkeys[..i + 1][..i] == sectionkeys[..i];
        if sectionkeys[i] in sections {
          var more := SaveSection(sections[sectionkeys[i]]);
          lines := lines + more;
        }
      }
      assert sectionkeys[..|sectionkeys|] == sectionkeys;
      text := Unlines(lines);
    }

    /** Reads a file; on an error no configuration is returned, so what was read before it does not matter. */
    method ReadIniFile(text: string) returns (ok: bool)
      modifies this
      ensures ok <==> ReadText(text).Good?
      ensures ok ==> AsDoc() == ReadText(text).reader.doc && Listed(AsDoc())
    {
      hide ReadLine, Listed;
      var lines := Lines(text);
      var r := START;
      ghost var goal := ReadText(text);
      assert lines[0..] == lines;
      for ln := 0 to |lines|
        invariant goal == ReadFrom(r, lines[ln..], ln)
      {
        assert lines[ln..][1..] == lines[ln + 1..];
        var x := ReadLine(r, lines[ln], ln == 0);
        if x.Bad? { return false; }
        r := x.reader;
      }
      ListedStart();
      ReadListed(START, lines, 0);
      top, sections, sectionkeys := r.doc.top, r.doc.sections, r.doc.sectionkeys;
      ok := true;
    }
  }

  lemma ListedStart()
    ensures Listed(START.doc)
  {
  }
}
