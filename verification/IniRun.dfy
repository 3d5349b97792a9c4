/**
 What a run of changes leaves in a configuration, said of the list of changes alone: the last change of a key
 decides its value, and saving and loading shows it.
 */
module IniRun {
  import opened Bytes
  import opened IniText
  import opened Ini

  /** Where a key stands: in the section of that name, or above all sections. */
  type Place = Option<string>

  // ---- looking into a document

  predicate Exists(d: Doc, at: Place) { at.None? || at.value in d.sections }

  function SectionAt(d: Doc, at: Place): Section
    requires Exists(d, at)
  {
    if at.None? then d.top else d.sections[at.value]
  }

  function ValueAt(d: Doc, at: Place, key: string): Option<string>
  {
    if Exists(d, at) && key in SectionAt(d, at).values then Some(SectionAt(d, at).values[key]) else None
  }

  function CommentAt(d: Doc, at: Place, key: string): string
  {
    if Exists(d, at) && key in SectionAt(d, at).comments then SectionAt(d, at).comments[key] else []
  }

  function KeysAt(d: Doc, at: Place): seq<string> { if Exists(d, at) then SectionAt(d, at).keys else [] }

  /** The comment of the section itself. */
  function HeadAt(d: Doc, at: Place): string { if Exists(d, at) then SectionAt(d, at).comment else [] }

  // ---- what changes do, by the list of changes

  predicate SetsIn(c: Change, at: Place) { (c.Set? && at.None?) || (c.SectionSet? && at == Some(c.section)) }

  predicate Sets(c: Change, at: Place, key: string) { SetsIn(c, at) && c.key == key }

  predicate Removes(c: Change, at: Place) { c.Delete? && at == Some(c.section) }

  predicate Touches(c: Change, at: Place, key: string) { Sets(c, at, key) || Removes(c, at) }

  /** The last change that sets the key or removes its section. */
  function LastTouch(cs: seq<Change>, at: Place, key: string): Option<Change>
  {
    if cs == [] then None
    else
      var k := |cs| - 1;
      if Touches(cs[k], at, key) then Some(cs[k]) else LastTouch(cs[..k], at, key)
  }

  /** It is the one after which no other touches the key. */
  lemma {:induction false} LastTouchIs(cs: seq<Change>, at: Place, key: string, i: nat)
    requires i < |cs| && Touches(cs[i], at, key) && forall j :: i < j < |cs| ==> !Touches(cs[j], at, key)
    ensures LastTouch(cs, at, key) == Some(cs[i])
    decreases |cs|
  {
    hide Touches;
    if i < |cs| - 1 { LastTouchIs(cs[..|cs| - 1], at, key, i); }
  }

  lemma {:induction false} LastTouchNone(cs: seq<Change>, at: Place, key: string)
    requires forall i :: 0 <= i < |cs| ==> !Touches(cs[i], at, key)
    ensures LastTouch(cs, at, key) == None
    decreases |cs|
  {
    hide Touches;
    if cs != [] { LastTouchNone(cs[..|cs| - 1], at, key); }
  }

  /** A key that had the value `was` has that of the last change that sets it, unless its section was removed since. */
  function ValueAfter(was: Option<string>, cs: seq<Change>, at: Place, key: string): Option<string>
  {
    var last := LastTouch(cs, at, key);
    if last.None? then was else if last.value.Delete? then None else Some(last.value.val)
  }

  /** A comment replaces the one before; setting without a comment keeps that of a key with a value. */
  function CommentAfter(d: Doc, cs: seq<Change>, at: Place, key: string): string
  {
    if cs == [] then CommentAt(d, at, key)
    else
      var c, before := cs[|cs| - 1], cs[..|cs| - 1];
      if Removes(c, at) then []
      else if !Sets(c, at, key) then CommentAfter(d, before, at, key)
      else if c.comment != [] then "#" + c.comment
      else if ValueAfter(ValueAt(d, at, key), before, at, key).Some? then CommentAfter(d, before, at, key) else []
  }

  /** A key that had no value goes to the end of the list. */
  function KeysAfter(d: Doc, cs: seq<Change>, at: Place): seq<string>
  {
    if cs == [] then KeysAt(d, at)
    else
      var c, before := cs[|cs| - 1], cs[..|cs| - 1];
      if Removes(c, at) then []
      else
        KeysAfter(d, before, at)
        + if SetsIn(c, at) && ValueAfter(ValueAt(d, at, c.key), before, at, c.key).None? then [c.key] else []
  }

  /** The section is there. */
  predicate ThereAfter(d: Doc, cs: seq<Change>, at: Place)
  {
    if cs == [] then Exists(d, at)
    else SetsIn(cs[|cs| - 1], at) || (!Removes(cs[|cs| - 1], at) && ThereAfter(d, cs[..|cs| - 1], at))
  }

  /** A section that was not there goes to the end of the list of names. */
  function NamesAfter(d: Doc, cs: seq<Change>): seq<string>
  {
    if cs == [] then d.sectionkeys
    else
      var c, before := cs[|cs| - 1], cs[..|cs| - 1];
      NamesAfter(d, before) + if c.SectionSet? && !ThereAfter(d, before, Some(c.section)) then [c.section] else []
  }

  /** The comment of a section stays until the section is removed; new sections have none. */
  function HeadAfter(d: Doc, cs: seq<Change>, at: Place): string
  {
    if exists i :: 0 <= i < |cs| && Removes(cs[i], at) then [] else HeadAt(d, at)
  }

  // ---- one change

  lemma ValueStep(d: Doc, c: Change, at: Place, key: string)
    ensures ValueAt(Apply(d, c), at, key)
         == if Sets(c, at, key) then Some(c.val) else if Removes(c, at) then None else ValueAt(d, at, key)
  {
  }

  lemma CommentStep(d: Doc, c: Change, at: Place, key: string)
    ensures CommentAt(Apply(d, c), at, key)
         == if Removes(c, at) then []
            else if !Sets(c, at, key) then CommentAt(d, at, key)
            else if c.comment != [] then "#" + c.comment
            else if ValueAt(d, at, key).Some? then CommentAt(d, at, key) else []
  {
  }

  lemma ListsStep(d: Doc, c: Change, at: Place)
    ensures var d' := Apply(d, c);
            && KeysAt(d', at) == (if Removes(c, at) then []
                                  else KeysAt(d, at) + if SetsIn(c, at) && ValueAt(d, at, c.key).None? then [c.key] else [])
            && (Exists(d', at) <==> SetsIn(c, at) || (!Removes(c, at) && Exists(d, at)))
            && d'.sectionkeys == d.sectionkeys + (if c.SectionSet? && !Exists(d, Some(c.section)) then [c.section] else [])
            && HeadAt(d', at) == (if Removes(c, at) then [] else HeadAt(d, at))
  {
  }

  // ---- every run

  lemma {:induction false} RunValue(d: Doc, cs: seq<Change>, at: Place, key: string)
    ensures ValueAt(ApplyAll(d, cs), at, key) == ValueAfter(ValueAt(d, at, key), cs, at, key)
    decreases |cs|
  {
    hide Apply, ValueAt;
    if cs != [] {
      RunValue(d, cs[..|cs| - 1], at, key);
      ValueStep(ApplyAll(d, cs[..|cs| - 1]), cs[|cs| - 1], at, key);
    }
  }

  lemma {:induction false} RunComment(d: Doc, cs: seq<Change>, at: Place, key: string)
    ensures CommentAt(ApplyAll(d, cs), at, key) == CommentAfter(d, cs, at, key)
    decreases |cs|
  {
    hide Apply, ValueAt, CommentAt, ValueAfter;
    if cs != [] {
      RunComment(d, cs[..|cs| - 1], at, key);
      RunValue(d, cs[..|cs| - 1], at, key);
      CommentStep(ApplyAll(d, cs[..|cs| - 1]), cs[|cs| - 1], at, key);
    }
  }

  lemma {:induction false} RunLists(d: Doc, cs: seq<Change>, at: Place)
    ensures var d' := ApplyAll(d, cs);
            && KeysAt(d', at) == KeysAfter(d, cs, at) && (Exists(d', at) <==> ThereAfter(d, cs, at))
            && HeadAt(d', at) == HeadAfter(d, cs, at)
    decreases |cs|
  {
    hide Apply, ValueAt, KeysAt, HeadAt, Exists, ValueAfter;
    if cs != [] {
      var before, c := cs[..|cs| - 1], cs[|cs| - 1];
      RunLists(d, before, at);
      if SetsIn(c, at) { RunValue(d, before, at, c.key); }
      ListsStep(ApplyAll(d, before), c, at);
    }
  }

  lemma {:induction false} RunNames(d: Doc, cs: seq<Change>)
    ensures ApplyAll(d, cs).sectionkeys == NamesAfter(d, cs)
    decreases |cs|
  {
    hide Apply, Exists;
    if cs != [] {
      var before, c := cs[..|cs| - 1], cs[|cs| - 1];
      RunNames(d, before);
      if c.SectionSet? { RunLists(d, before, Some(c.section)); }
      ListsStep(ApplyAll(d, before), c, None);
    }
  }

  /** A key that is not touched keeps value and comment, whatever else is changed. */
  lemma Untouched(d: Doc, cs: seq<Change>, at: Place, key: string)
    requires forall i :: 0 <= i < |cs| ==> !Touches(cs[i], at, key)
    ensures ValueAt(ApplyAll(d, cs), at, key) == ValueAt(d, at, key)
    ensures CommentAt(ApplyAll(d, cs), at, key) == CommentAt(d, at, key)
  {
    hide Apply, ValueAt, CommentAt;
    LastTouchNone(cs, at, key);
    RunValue(d, cs, at, key);
    RunComment(d, cs, at, key);
    UntouchedComment(d, cs, at, key);
  }

  /** The last change that sets a key decides its value, and so does a removal of its section that comes last. */
  lemma LastSetCounts(d: Doc, cs: seq<Change>, at: Place, key: string, i: nat)
    requires i < |cs| && Touches(cs[i], at, key) && forall j :: i < j < |cs| ==> !Touches(cs[j], at, key)
    ensures ValueAt(ApplyAll(d, cs), at, key) == if cs[i].Delete? then None else Some(cs[i].val)
    ensures !cs[i].Delete? && cs[i].comment != [] ==> CommentAt(ApplyAll(d, cs), at, key) == "#" + cs[i].comment
    ensures cs[i].Delete? ==> CommentAt(ApplyAll(d, cs), at, key) == []
  {
    hide ValueAt, CommentAt;
    LastTouchIs(cs, at, key, i);
    RunValue(d, cs, at, key);
    RunComment(d, cs, at, key);
    LastComment(d, cs, at, key, i);
  }

  lemma {:induction false} LastComment(d: Doc, cs: seq<Change>, at: Place, key: string, i: nat)
    requires i < |cs| && Touches(cs[i], at, key) && forall j :: i < j < |cs| ==> !Touches(cs[j], at, key)
    ensures !cs[i].Delete? && cs[i].comment != [] ==> CommentAfter(d, cs, at, key) == "#" + cs[i].comment
    ensures cs[i].Delete? ==> CommentAfter(d, cs, at, key) == []
    decreases |cs|
  {
    hide ValueAt, CommentAt, ValueAfter;
    if i < |cs| - 1 { LastComment(d, cs[..|cs| - 1], at, key, i); }
  }

  lemma {:induction false} UntouchedComment(d: Doc, cs: seq<Change>, at: Place, key: string)
    requires forall i :: 0 <= i < |cs| ==> !Touches(cs[i], at, key)
    ensures CommentAfter(d, cs, at, key) == CommentAt(d, at, key)
    decreases |cs|
  {
    if cs != [] { UntouchedComment(d, cs[..|cs| - 1], at, key); }
  }

  /**
   What was set last is what the file says: after any run of changes whose strings survive a line, saving and
   loading gives every key the value and the comment that the list of changes tells.
   */
  lemma SavedAsSet(d: Doc, cs: seq<Change>, at: Place, key: string)
    requires DocOk(d) && Listed(d) && forall i :: 0 <= i < |cs| ==> ChangeOk(cs[i])
    ensures var x := ReadText(Unlines(Print(ApplyAll(d, cs))));
            && x.Good?
            && ValueAt(x.reader.doc, at, key) == ValueAfter(ValueAt(d, at, key), cs, at, key)
            && (ValueAt(x.reader.doc, at, key).Some? ==> CommentAt(x.reader.doc, at, key) == CommentAfter(d, cs, at, key))
            && (Exists(x.reader.doc, at) <==> ThereAfter(d, cs, at))
            && (at.Some? ==> HeadAt(x.reader.doc, at) == HeadAfter(d, cs, at))
  {
    hide DocOk, Listed, ReadText, Print, ChangeOk, ApplyAll, ValueAfter, CommentAfter, ThereAfter, HeadAfter;
    RunRoundTrip(d, cs);
    RunValue(d, cs, at, key);
    RunComment(d, cs, at, key);
    RunLists(d, cs, at);
    SameLooks(ReadText(Unlines(Print(ApplyAll(d, cs)))).reader.doc, ApplyAll(d, cs), at, key);
  }

  lemma SameLooks(a: Doc, b: Doc, at: Place, key: string)
    requires SameDoc(a, b)
    ensures ValueAt(a, at, key) == ValueAt(b, at, key) && (Exists(a, at) <==> Exists(b, at))
    ensures ValueAt(a, at, key).Some? ==> CommentAt(a, at, key) == CommentAt(b, at, key)
    ensures at.Some? ==> HeadAt(a, at) == HeadAt(b, at)
  {
    CommentSame(a.top, key);
    CommentSame(b.top, key);
    if Exists(a, at) { assert at.Some? ==> SameSection(a.sections[at.value], b.sections[at.value]); }
  }

  // ---- the order in the file

  /** The keys of `ks` that have a value. */
  function Valued(s: Section, ks: seq<string>): seq<string>
  {
    if ks == [] then []
    else Valued(s, ks[..|ks| - 1]) + if ks[|ks| - 1] in s.values then [ks[|ks| - 1]] else []
  }

  /** The names of sections that are there, each where it comes first. */
  function Held(d: Doc, names: seq<string>): seq<string>
  {
    if names == [] then []
    else
      var k := |names| - 1;
      Held(d, names[..k]) + if names[k] in d.sections && names[k] !in names[..k] then [names[k]] else []
  }

  /** The keys of section `n`, once for every time that its name is in the list. */
  function Told(d: Doc, names: seq<string>, n: string): seq<string>
  {
    if names == [] then []
    else
      var k := |names| - 1;
      Told(d, names[..k], n) + if names[k] == n && n in d.sections then Valued(d.sections[n], d.sections[n].keys) else []
  }

  lemma {:induction false} ShowKeys(base: Section, s: Section, ks: seq<string>)
    ensures Show(base, s, ks).keys == base.keys + Valued(s, ks)
    decreases |ks|
  {
    if ks != [] { ShowKeys(base, s, ks[..|ks| - 1]); }
  }

  lemma {:induction false} ShowOrder(d0: Doc, d: Doc, names: seq<string>, n: string)
    requires Listed(d) && d0.sections == map[] && d0.sectionkeys == []
    ensures var r := ShowSections(d0, d, names);
            && r.sectionkeys == Held(d, names)
            && (n in r.sections <==> n in names && n in d.sections)
            && KeysAt(r, Some(n)) == Told(d, names, n)
    decreases |names|
  {
    hide Show, Valued;
    if names != [] {
      var k := |names| - 1;
      var t, m := names[..k], names[k];
      ShowOrder(d0, d, t, n);
      ShowOrder(d0, d, t, m);
      assert names == t + [m];
      var d1 := ShowSections(d0, d, t);
      if m in d.sections { ShowKeys(Base(d1, d.sections[m]), d.sections[m], d.sections[m].keys); }
    }
  }

  /**
   Saving and loading keeps the order of keys and of sections. A section that was removed and set again is printed
   as often as its name is in the list, and has its keys that many times after loading.
   */
  lemma OrderKept(d: Doc, n: string)
    requires DocOk(d) && Listed(d)
    ensures var x := ReadText(Unlines(Print(d)));
            && x.Good?
            && KeysAt(x.reader.doc, None) == Valued(d.top, d.top.keys)
            && x.reader.doc.sectionkeys == Held(d, d.sectionkeys)
            && KeysAt(x.reader.doc, Some(n)) == Told(d, d.sectionkeys, n)
  {
    hide PrintKeys, PrintSections, Show, ShowSections, ReadFrom, DocOk, Valued, Held, Told;
    LoadsBack(d);
    var d0 := NOTHING.(top := Show(EMPTY, d.top, d.top.keys));
    ShowOrder(d0, d, d.sectionkeys, n);
    SectionsShown(d0, d, d.sectionkeys);
    ShowKeys(EMPTY, d.top, d.top.keys);
  }

  /** Makes a run of changes on a configuration. */
  method ChangeAll(config: Config, cs: seq<Change>)
    modifies config
    ensures config.AsDoc() == ApplyAll(old(config.AsDoc()), cs)
    ensures forall at, key :: ValueAt(config.AsDoc(), at, key) == ValueAfter(ValueAt(old(config.AsDoc()), at, key), cs, at, key)
  {
    hide Apply, ValueAt, ValueAfter;
    ghost var d := config.AsDoc();
    for i := 0 to |cs|
      invariant config.AsDoc() == ApplyAll(d, cs[..i])
    {
      assert cs[..i + 1][..i] == cs[..i];
      ChangeOne(config, cs[i]);
    }
    assert cs[..|cs|] == cs;
    forall at, key ensures ValueAt(config.AsDoc(), at, key) == ValueAfter(ValueAt(d, at, key), cs, at, key) {
      RunValue(d, cs, at, key);
    }
  }

  method ChangeOne(config: Config, c: Change)
    modifies config
    ensures config.AsDoc() == Apply(old(config.AsDoc()), c)
  {
    match c
    case Set(k, v, m) => config.Set(k, v, m);
    case SectionSet(s, k, v, m) => config.SectionSet(s, k, v, m);
    case Delete(s) => config.DelSection(s);
  }
}
