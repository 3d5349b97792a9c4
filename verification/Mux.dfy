/**
 The HTTP mux: patterns registered in any order, those that end in a slash kept from longest to shortest by
 binary search, and the longest match taken. What is found depends on the set of patterns alone.
 */
module Mux {
  import opened Bytes

  /** A registered handler, by number, with its pattern. */
  datatype Entry = Entry(h: nat, pattern: string)

  datatype Registration = Registered | InvalidPattern | NilHandler | Duplicate

  predicate EndsInSlash(p: string) { p != [] && p[|p| - 1] == '/' }

  predicate Descending(es: seq<Entry>)
  {
    forall i, j :: 0 <= i < j < |es| ==> |es[i].pattern| >= |es[j].pattern|
  }

  /** `sort.Search`: the first position whose pattern is shorter than `n`, by halving. */
  method Search(es: seq<Entry>, n: nat) returns (i: nat)
    requires Descending(es)
    ensures i <= |es|
    ensures forall k :: 0 <= k < i ==> |es[k].pattern| >= n
    ensures forall k :: i <= k < |es| ==> |es[k].pattern| < n
  {
    i := 0;
    var j := |es|;
    while i < j
      invariant i <= j <= |es|
      invariant forall k :: 0 <= k < i ==> |es[k].pattern| >= n
      invariant forall k :: j <= k < |es| ==> |es[k].pattern| < n
    {
      var h := (i + j) / 2;
      if |es[h].pattern| >= n { i := h + 1; } else { j := h; }
    }
  }

  /** Shifts the shorter entries down by one and puts the new one in front of them. */
  method AppendSorted(es: seq<Entry>, e: Entry) returns (r: seq<Entry>)
    requires Descending(es)
    ensures Descending(r) && |r| == |es| + 1
    ensures exists i :: 0 <= i <= |es| && r == es[..i] + [e] + es[i..]
  {
    var i := Search(es, |e.pattern|);
    r := es[..i] + [e] + es[i..];
  }

  // ---- what a path should find

  /** The longest registered pattern ending in a slash among the first `n` prefixes of the path. */
  function Longest(m: map<string, Entry>, path: string, n: nat): (r: Option<Entry>)
    requires n <= |path|
  {
    if n == 0 then None
    else if EndsInSlash(path[..n]) && path[..n] in m then Some(m[path[..n]])
    else Longest(m, path, n - 1)
  }

  /** The exact pattern, else the longest one ending in a slash that the path begins with. */
  function Find(m: map<string, Entry>, path: string): Option<Entry>
  {
    if path in m then Some(m[path]) else Longest(m, path, |path|)
  }

  /** A pattern that begins with the host comes before one that does not. */
  function FindHost(m: map<string, Entry>, host: string, path: string): Option<Entry>
  {
    var r := if HasHosts(m) then Find(m, host + path) else None;
    if r.Some? then r else Find(m, path)
  }

  predicate HasHosts(m: map<string, Entry>) { exists p :: p in m && p != [] && p[0] != '/' }

  /** `Longest` is the longest: it is a registered prefix ending in a slash, and no longer one is. */
  lemma {:induction false} LongestIs(m: map<string, Entry>, path: string, n: nat, p: string)
    requires n <= |path| && p in m && EndsInSlash(p) && p <= path && |p| <= n
    ensures Longest(m, path, n).Some?
    ensures exists k :: |p| <= k <= n && EndsInSlash(path[..k]) && path[..k] in m && Longest(m, path, n) == Some(m[path[..k]])
    decreases n
  {
    if EndsInSlash(path[..n]) && path[..n] in m {
    } else {
      assert |p| == n ==> p == path[..n];
      LongestIs(m, path, n - 1, p);
    }
  }

  lemma {:induction false} LongestNone(m: map<string, Entry>, path: string, n: nat)
    requires n <= |path| && forall k :: 0 < k <= n ==> !(EndsInSlash(path[..k]) && path[..k] in m)
    ensures Longest(m, path, n) == None
    decreases n
  {
    if n > 0 { LongestNone(m, path, n - 1); }
  }

  // ---- the handler object

  class HttpHandler {
    var m: map<string, Entry>
    var es: seq<Entry>
    var hosts: bool

    constructor ()
      ensures Valid() && m == map[]
    {
      m, es, hosts := map[], [], false;
    }

    /** The list holds exactly the slash patterns of the map, from longest to shortest. */
    ghost predicate Valid()
      reads this
    {
      && (forall p :: p in m ==> p != [] && m[p].pattern == p)
      && Descending(es)
      && (forall i :: 0 <= i < |es| ==> EndsInSlash(es[i].pattern) && es[i].pattern in m && m[es[i].pattern] == es[i])
      && (forall p :: p in m && EndsInSlash(p) ==> m[p] in es)
      && (hosts <==> HasHosts(m))
    }

    /** Registers a pattern once. */
    method Handle(pattern: string, handler: Option<nat>) returns (r: Registration)
      requires Valid()
      modifies this
      ensures Valid()
      ensures r == if pattern == [] then InvalidPattern else if handler.None? then NilHandler
                   else if pattern in old(m) then Duplicate else Registered
      ensures m == if r == Registered then old(m)[pattern := Entry(handler.value, pattern)] else old(m)
    {
      if pattern == [] { return InvalidPattern; }
      if handler.None? { return NilHandler; }
      if pattern in m { return Duplicate; }
      var e := Entry(handler.value, pattern);
      ghost var was, list := m, es;
      m := m[pattern := e];
      if pattern[|pattern| - 1] == '/' {
        es := AppendSorted(es, e);
        Inserted(was, list, e, es);
      }
      if pattern[0] != '/' { hosts := true; }
      HostsMore(was, pattern, e);
      r := Registered;
    }

    /** Exact match first, then the first pattern of the list that the path begins with. */
    method Match(path: string) returns (r: Option<Entry>)
      requires Valid()
      ensures r == Find(m, path)
      ensures path in m ==> r == Some(m[path])
      ensures path !in m && r.Some? ==> EndsInSlash(r.value.pattern) && r.value.pattern <= path
      ensures path !in m ==> forall p :: p in m && EndsInSlash(p) && p <= path ==> r.Some? && |p| <= |r.value.pattern|
    {
      if path in m { return Some(m[path]); }
      for i := 0 to |es|
        invariant forall k :: 0 <= k < i ==> !(es[k].pattern <= path)
      {
        if es[i].pattern <= path {
          FirstIsLongest(m, es, path, i);
          return Some(es[i]);
        }
      }
      NoneMatches(m, es, path);
      r := None;
    }

    /** `handler`: host-specific patterns first; `None` stands for the not-found handler. */
    method Handler(host: string, path: string) returns (r: Option<Entry>)
      requires Valid()
      ensures r == FindHost(m, host, path)
    {
      r := None;
      if hosts { r := Match(host + path); }
      if r.None? { r := Match(path); }
    }
  }

  lemma Inserted(m: map<string, Entry>, es: seq<Entry>, e: Entry, r: seq<Entry>)
    requires e.pattern !in m && EndsInSlash(e.pattern)
    requires exists i :: 0 <= i <= |es| && r == es[..i] + [e] + es[i..]
    requires forall i :: 0 <= i < |es| ==> EndsInSlash(es[i].pattern) && es[i].pattern in m && m[es[i].pattern] == es[i]
    requires forall p :: p in m && EndsInSlash(p) ==> m[p] in es
    ensures var m' := m[e.pattern := e];
            (forall i :: 0 <= i < |r| ==> EndsInSlash(r[i].pattern) && r[i].pattern in m' && m'[r[i].pattern] == r[i])
            && forall p :: p in m' && EndsInSlash(p) ==> m'[p] in r
  {
    hide EndsInSlash;
    var i :| 0 <= i <= |es| && r == es[..i] + [e] + es[i..];
    var m' := m[e.pattern := e];
    forall x ensures x in r <==> x == e || x in es { InsertHas(es, e, i, x); }
    forall x | x in r ensures EndsInSlash(x.pattern) && x.pattern in m' && m'[x.pattern] == x {
      if x != e { var k :| 0 <= k < |es| && es[k] == x; }
    }
  }

  lemma InsertHas(es: seq<Entry>, e: Entry, i: nat, x: Entry)
    requires i <= |es|
    ensures x in es[..i] + [e] + es[i..] <==> x == e || x in es
  {
    assert es == es[..i] + es[i..];
  }

  lemma HostsMore(m: map<string, Entry>, p: string, e: Entry)
    requires p != [] && p !in m
    ensures HasHosts(m[p := e]) <==> HasHosts(m) || p[0] != '/'
  {
    var m' := m[p := e];
    if HasHosts(m) {
      var q :| q in m && q != [] && q[0] != '/';
      assert q in m';
    }
    if p[0] != '/' { assert p in m'; }
  }

  /** In a list from longest to shortest the first match is the longest. */
  lemma FirstIsLongest(m: map<string, Entry>, es: seq<Entry>, path: string, i: nat)
    requires i < |es| && Descending(es) && es[i].pattern <= path && forall k :: 0 <= k < i ==> !(es[k].pattern <= path)
    requires forall k :: 0 <= k < |es| ==> EndsInSlash(es[k].pattern) && es[k].pattern in m && m[es[k].pattern] == es[k]
    requires forall p :: p in m && EndsInSlash(p) ==> m[p] in es && m[p].pattern == p
    ensures Longest(m, path, |path|) == Some(es[i])
  {
    var p := es[i].pattern;
    LongestIs(m, path, |path|, p);
    var n :| |p| <= n <= |path| && EndsInSlash(path[..n]) && path[..n] in m && Longest(m, path, |path|) == Some(m[path[..n]]);
    var k :| 0 <= k < |es| && es[k] == m[path[..n]];
    assert es[k].pattern == path[..n] <= path;
    assert p == path[..n];
  }

  lemma SlashListed(m: map<string, Entry>, es: seq<Entry>, path: string, n: nat)
    requires n <= |path| && EndsInSlash(path[..n]) && path[..n] in m
    requires forall p :: p in m && EndsInSlash(p) ==> m[p] in es && m[p].pattern == p
    ensures exists k :: 0 <= k < |es| && es[k].pattern <= path
  {
    var k :| 0 <= k < |es| && es[k] == m[path[..n]];
    assert es[k].pattern == path[..n] <= path;
  }

  lemma NoneMatches(m: map<string, Entry>, es: seq<Entry>, path: string)
    requires forall k :: 0 <= k < |es| ==> !(es[k].pattern <= path)
    requires forall p :: p in m && EndsInSlash(p) ==> m[p] in es && m[p].pattern == p
    ensures Longest(m, path, |path|) == None
  {
    forall n | 0 < n <= |path| ensures !(EndsInSlash(path[..n]) && path[..n] in m) {
      if EndsInSlash(path[..n]) && path[..n] in m {
        SlashListed(m, es, path, n);
      }
    }
    LongestNone(m, path, |path|);
  }

  // ---- any order of registration

  function Table(es: seq<Entry>): map<string, Entry>
  {
    if es == [] then map[] else Table(es[..|es| - 1])[es[|es| - 1].pattern := es[|es| - 1]]
  }

  predicate DistinctPatterns(es: seq<Entry>)
  {
    forall i, j :: 0 <= i < j < |es| ==> es[i].pattern != es[j].pattern
  }

  lemma {:induction false} TableHas(es: seq<Entry>, p: string)
    requires DistinctPatterns(es)
    ensures p in Table(es) <==> exists i :: 0 <= i < |es| && es[i].pattern == p
    ensures p in Table(es) ==> Table(es)[p] in es && Table(es)[p].pattern == p
    decreases |es|
  {
    if es != [] {
      var k := |es| - 1;
      TableHas(es[..k], p);
      if i :| 0 <= i < k && es[i].pattern == p { assert es[..k][i].pattern == p; }
      if es[k].pattern == p { assert es[k].pattern == p; }
    }
  }

  /** The same patterns in another order make the same table, and so the same dispatch for every request. */
  lemma OrderDoesNotMatter(a: seq<Entry>, b: seq<Entry>, host: string, path: string)
    requires DistinctPatterns(a) && DistinctPatterns(b) && forall e :: e in a <==> e in b
    ensures Table(a) == Table(b) && FindHost(Table(a), host, path) == FindHost(Table(b), host, path)
  {
    hide Table, DistinctPatterns;
    forall p | p in Table(a) ensures p in Table(b) && Table(b)[p] == Table(a)[p] { SamePattern(a, b, p); }
    forall p | p in Table(b) ensures p in Table(a) { SamePattern(b, a, p); }
  }

  lemma SamePattern(a: seq<Entry>, b: seq<Entry>, p: string)
    requires DistinctPatterns(a) && DistinctPatterns(b) && p in Table(a) && forall e :: e in a ==> e in b
    ensures p in Table(b) && Table(b)[p] == Table(a)[p]
  {
    hide Table, DistinctPatterns;
    TableHas(a, p);
    TableAt(b, Table(a)[p]);
  }

  /** Registers a list of patterns one after the other. */
  method RegisterAll(es: seq<Entry>) returns (h: HttpHandler)
    requires DistinctPatterns(es) && forall e :: e in es ==> e.pattern != []
    ensures fresh(h) && h.Valid() && h.m == Table(es)
  {
    h := new HttpHandler();
    for i := 0 to |es|
      invariant h.Valid() && fresh(h) && h.m == Table(es[..i])
    {
      assert es[..i + 1][..i] == es[..i];
      TableHas(es[..i], es[i].pattern);
      assert es[i].pattern !in h.m;
      var r := h.Handle(es[i].pattern, Some(es[i].h));
    }
    assert es[..|es|] == es;
  }

  // ---- what is found, said of the registered list

  /** `e` is for every path below its pattern. */
  predicate Below(e: Entry, path: string) { EndsInSlash(e.pattern) && e.pattern <= path }

  /** `e` is for this path. */
  predicate Fits(e: Entry, path: string) { e.pattern == path || Below(e, path) }

  /**
   `r` is what should serve the path: the entry with that very pattern; if there is none, the entry of the longest
   pattern ending in a slash that the path begins with; nothing if and only if there is none of these either.
   */
  ghost predicate Serves(es: seq<Entry>, path: string, r: Option<Entry>)
  {
    && (r.None? <==> forall e :: e in es ==> !Fits(e, path))
    && (r.Some? ==> r.value in es && Fits(r.value, path))
    && (forall e :: e in es && e.pattern == path ==> r == Some(e))
    && (r.Some? ==> forall e :: e in es && Below(e, path) ==> |e.pattern| <= |r.value.pattern|)
  }

  /** Only one answer is right. */
  lemma OneServes(es: seq<Entry>, path: string, r: Option<Entry>, r': Option<Entry>)
    requires DistinctPatterns(es) && Serves(es, path, r) && Serves(es, path, r')
    ensures r == r'
  {
    if r.Some? && r'.Some? {
      var e, e' := r.value, r'.value;
      assert e.pattern == e'.pattern;
      var i :| 0 <= i < |es| && es[i] == e;
      var j :| 0 <= j < |es| && es[j] == e';
    }
  }

  /** Looking up the table of a registered list gives the right answer. */
  lemma FindServes(es: seq<Entry>, path: string)
    requires DistinctPatterns(es)
    ensures Serves(es, path, Find(Table(es), path))
  {
    hide Table;
    var m := Table(es);
    var r := Find(m, path);
    forall e | e in es ensures e.pattern in m && m[e.pattern] == e { TableAt(es, e); }
    TableHas(es, path);
    if path !in m {
      forall e | e in es && Below(e, path) ensures r.Some? && |e.pattern| <= |r.value.pattern| {
        LongestIs(m, path, |path|, e.pattern);
        var k :| |e.pattern| <= k <= |path| && EndsInSlash(path[..k]) && path[..k] in m && r == Some(m[path[..k]]);
        TableHas(es, path[..k]);
      }
      LongestKnown(es, path, |path|);
    } else {
      assert r == Some(m[path]);
    }
  }

  lemma {:induction false} LongestKnown(es: seq<Entry>, path: string, n: nat)
    requires DistinctPatterns(es) && n <= |path|
    ensures var r := Longest(Table(es), path, n); r.Some? ==> r.value in es && Below(r.value, path)
    decreases n
  {
    hide Table;
    if n > 0 {
      TableHas(es, path[..n]);
      LongestKnown(es, path, n - 1);
    }
  }

  lemma TableAt(es: seq<Entry>, e: Entry)
    requires DistinctPatterns(es) && e in es
    ensures e.pattern in Table(es) && Table(es)[e.pattern] == e
  {
    hide Table;
    var i :| 0 <= i < |es| && es[i] == e;
    TableHas(es, e.pattern);
    var j :| 0 <= j < |es| && es[j] == Table(es)[e.pattern];
  }

  /** Some pattern begins with a host. */
  ghost predicate NamesHost(es: seq<Entry>) { exists e :: e in es && e.pattern != [] && e.pattern[0] != '/' }

  /**
   An entry for host and path comes before any for the path alone, even one with that very pattern; the path alone
   is looked up if and only if there is none. Host and path are looked up only if some pattern begins with a host, which
   an entry for them implies unless the host is empty or begins with a slash.
   */
  lemma HostFirst(es: seq<Entry>, host: string, path: string)
    requires DistinctPatterns(es)
    ensures var r := FindHost(Table(es), host, path);
            if NamesHost(es) && exists e :: e in es && Fits(e, host + path)
            then Serves(es, host + path, r) else Serves(es, path, r)
    ensures host != [] && host[0] != '/' && (exists e :: e in es && Fits(e, host + path)) ==> NamesHost(es)
  {
    hide Table;
    FindServes(es, host + path);
    FindServes(es, path);
    HostsAre(es);
    if host != [] && host[0] != '/' && exists e :: e in es && Fits(e, host + path) {
      var e :| e in es && Fits(e, host + path);
      assert e.pattern != [] && e.pattern[0] == (host + path)[0] == host[0];
    }
  }

  lemma HostsAre(es: seq<Entry>)
    requires DistinctPatterns(es)
    ensures HasHosts(Table(es)) <==> NamesHost(es)
  {
    hide Table;
    var m := Table(es);
    if HasHosts(m) {
      var p :| p in m && p != [] && p[0] != '/';
      TableHas(es, p);
    }
    if NamesHost(es) {
      var e :| e in es && e.pattern != [] && e.pattern[0] != '/';
      TableAt(es, e);
      assert e.pattern in m;
    }
  }

  /** Registers a list of patterns in any order and serves one path. */
  method RegisterAndMatch(es: seq<Entry>, path: string) returns (r: Option<Entry>)
    requires DistinctPatterns(es) && forall e :: e in es ==> e.pattern != []
    ensures Serves(es, path, r)
  {
    hide Table, Find;
    var h := RegisterAll(es);
    FindServes(es, path);
    r := h.Match(path);
  }

  /** The same for a request to a host. */
  method RegisterAndServe(es: seq<Entry>, host: string, path: string) returns (r: Option<Entry>)
    requires DistinctPatterns(es) && forall e :: e in es ==> e.pattern != []
    ensures if NamesHost(es) && exists e :: e in es && Fits(e, host + path)
            then Serves(es, host + path, r) else Serves(es, path, r)
  {
    hide Table, Find;
    var h := RegisterAll(es);
    HostFirst(es, host, path);
    r := h.Handler(host, path);
  }
}
