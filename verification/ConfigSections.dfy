/** Sections of lib/configparser/configparser.go as values: grouping by name, printing, reading back. */
module ConfigSections {
  import opened Words
  import opened ConfigText

  // ----- sections with the same name are kept together -----

  function Names<T>(s: seq<T>, key: T -> string): (ns: seq<string>)
    ensures forall i :: 0 <= i < |s| ==> key(s[i]) in ns
    ensures forall i, j :: 0 <= i < j < |ns| ==> ns[i] != ns[j]
    ensures s != [] ==> ns != [] && ns[0] == key(s[0])
  {
    if s == [] then []
    else
      var ns := Names(s[..|s| - 1], key);
      var n := key(s[|s| - 1]);
      if n in ns then ns else ns + [n]
  }

  function Filter<T>(s: seq<T>, key: T -> string, n: string): seq<T> {
    if s == [] then []
    else Filter(s[..|s| - 1], key, n) + if key(s[|s| - 1]) == n then [s[|s| - 1]] else []
  }

  function GroupBy<T>(names: seq<string>, s: seq<T>, key: T -> string): seq<T> {
    if names == [] then [] else GroupBy(names[..|names| - 1], s, key) + Filter(s, key, names[|names| - 1])
  }

  /** The order in which AllSections lists them: by first appearance of the name, then by age. */
  function Grouped<T>(s: seq<T>, key: T -> string): seq<T> {
    GroupBy(Names(s, key), s, key)
  }

  /** No other name in between. */
  predicate Contiguous<T>(s: seq<T>, key: T -> string) {
    forall i, j, k :: 0 <= i < j < k < |s| && key(s[i]) == key(s[k]) ==> key(s[j]) == key(s[i])
  }

  lemma {:induction false} NamesFrom<T>(s: seq<T>, key: T -> string, n: string)
    ensures n in Names(s, key) ==> exists i :: 0 <= i < |s| && key(s[i]) == n
  {
    if s != [] {
      NamesFrom(s[..|s| - 1], key, n);
    }
  }

  lemma {:induction false} FilterHas<T>(s: seq<T>, key: T -> string, n: string)
    ensures forall x :: x in Filter(s, key, n) ==> x in s && key(x) == n
  {
    if s != [] {
      FilterHas(s[..|s| - 1], key, n);
    }
  }

  lemma {:induction false} FilterNone<T>(s: seq<T>, key: T -> string, n: string)
    requires n !in Names(s, key)
    ensures Filter(s, key, n) == []
  {
    if s != [] {
      FilterNone(s[..|s| - 1], key, n);
    }
  }

  lemma FilterMore<T>(s: seq<T>, x: T, key: T -> string, n: string)
    ensures Filter(s + [x], key, n) == if key(x) == n then Filter(s, key, n) + [x] else Filter(s, key, n)
  {
    assert (s + [x])[..|s|] == s;
  }

  lemma {:induction false} GroupByHas<T>(names: seq<string>, s: seq<T>, key: T -> string)
    ensures forall x :: x in GroupBy(names, s, key) ==> x in s && key(x) in names
  {
    if names != [] {
      GroupByHas(names[..|names| - 1], s, key);
      FilterHas(s, key, names[|names| - 1]);
    }
  }

  /** Another element leaves the groups of the other names as they are. */
  lemma {:induction false} GroupByOther<T>(names: seq<string>, s: seq<T>, x: T, key: T -> string)
    requires key(x) !in names
    ensures GroupBy(names, s + [x], key) == GroupBy(names, s, key)
  {
    if names != [] {
      GroupByOther(names[..|names| - 1], s, x, key);
      FilterMore(s, x, key, names[|names| - 1]);
    }
  }

  lemma NamesMore<T>(s: seq<T>, x: T, key: T -> string)
    ensures Names(s + [x], key) == if key(x) in Names(s, key) then Names(s, key) else Names(s, key) + [key(x)]
  {
    assert (s + [x])[..|s|] == s;
  }

  lemma {:induction false} LastName<T>(s: seq<T>, key: T -> string)
    requires s != [] && Contiguous(s, key)
    ensures Names(s, key)[|Names(s, key)| - 1] == key(s[|s| - 1])
  {
    var front, x := s[..|s| - 1], s[|s| - 1];
    if front != [] && key(x) in Names(front, key) {
      LastName(front, key);
      NamesFrom(front, key, key(x));
      var i :| 0 <= i < |front| && key(front[i]) == key(x);
      assert i < |front| - 1 ==> key(s[|front| - 1]) == key(s[i]);
    }
  }

  /** A new name opens a new group at the end. */
  lemma GroupedNew<T>(s: seq<T>, x: T, key: T -> string)
    requires key(x) !in Names(s, key)
    ensures Grouped(s + [x], key) == Grouped(s, key) + [x]
  {
    var names := Names(s, key);
    NamesMore(s, x, key);
    OneMoreGroup(names, key(x), s + [x], key);
    GroupByOther(names, s, x, key);
    NewGroup(s, x, key);
  }

  lemma OneMoreGroup<T>(names: seq<string>, n: string, s: seq<T>, key: T -> string)
    ensures GroupBy(names + [n], s, key) == GroupBy(names, s, key) + Filter(s, key, n)
  {
    assert (names + [n])[..|names|] == names;
  }

  lemma NewGroup<T>(s: seq<T>, x: T, key: T -> string)
    requires key(x) !in Names(s, key)
    ensures Filter(s + [x], key, key(x)) == [x]
  {
    FilterNone(s, key, key(x));
    FilterMore(s, x, key, key(x));
  }

  /** The name of the last group: the group, which is last, grows. */
  lemma GroupedLast<T>(s: seq<T>, x: T, key: T -> string)
    requires key(x) in Names(s, key) && Names(s, key)[|Names(s, key)| - 1] == key(x)
    ensures Grouped(s + [x], key) == Grouped(s, key) + [x]
  {
    var names := Names(s, key);
    NamesMore(s, x, key);
    GroupByOther(names[..|names| - 1], s, x, key);
    FilterMore(s, x, key, key(x));
  }

  /** Sections that are contiguous stay in their order. */
  lemma {:induction false} GroupedContiguous<T>(s: seq<T>, key: T -> string)
    requires Contiguous(s, key)
    ensures Grouped(s, key) == s
  {
    if s != [] {
      var front, x := s[..|s| - 1], s[|s| - 1];
      assert s == front + [x];
      GroupedContiguous(front, key);
      if key(x) in Names(front, key) {
        NamesMore(front, x, key);
        LastName(s, key);
        GroupedLast(front, x, key);
      } else {
        GroupedNew(front, x, key);
      }
    }
  }

  lemma {:induction false} FilterContiguous<T>(names: seq<string>, s: seq<T>, key: T -> string)
    requires forall i, j :: 0 <= i < j < |names| ==> names[i] != names[j]
    ensures Contiguous(GroupBy(names, s, key), key)
  {
    if names != [] {
      var init, n := names[..|names| - 1], names[|names| - 1];
      FilterContiguous(init, s, key);
      GroupByHas(init, s, key);
      FilterHas(s, key, n);
      assert n !in init;
    }
  }

  // ----- the order of the groups, and in them -----

  /** `x` stands before `y`. */
  predicate Before<T(==)>(t: seq<T>, x: T, y: T) {
    exists i, j :: 0 <= i < j < |t| && t[i] == x && t[j] == y
  }

  lemma BeforeAppend<T>(t: seq<T>, u: seq<T>, x: T, y: T)
    requires Before(t, x, y) || Before(u, x, y) || (x in t && y in u)
    ensures Before(t + u, x, y)
  {
    if i, j :| 0 <= i < j < |t| && t[i] == x && t[j] == y {
      assert (t + u)[i] == x && (t + u)[j] == y;
    } else if i, j :| 0 <= i < j < |u| && u[i] == x && u[j] == y {
      assert (t + u)[|t| + i] == x && (t + u)[|t| + j] == y;
    } else {
      var i :| 0 <= i < |t| && t[i] == x;
      var j :| 0 <= j < |u| && u[j] == y;
      assert (t + u)[i] == x && (t + u)[|t| + j] == y;
    }
  }

  lemma {:induction false} FilterKeeps<T>(s: seq<T>, key: T -> string, a: nat)
    requires a < |s|
    ensures s[a] in Filter(s, key, key(s[a]))
  {
    if a < |s| - 1 {
      FilterKeeps(s[..|s| - 1], key, a);
    }
  }

  /** Within a group the older ones come first. */
  lemma {:induction false} FilterOrder<T>(s: seq<T>, key: T -> string, a: nat, b: nat)
    requires a < b < |s| && key(s[a]) == key(s[b])
    ensures Before(Filter(s, key, key(s[a])), s[a], s[b])
  {
    var front, n := s[..|s| - 1], key(s[a]);
    if b < |s| - 1 {
      FilterOrder(front, key, a, b);
    } else {
      FilterKeeps(front, key, a);
    }
    BeforeAppend(Filter(front, key, n), if key(s[|s| - 1]) == n then [s[|s| - 1]] else [], s[a], s[b]);
  }

  /** The name of `s[a]` has appeared when that of `s[b]` has not. */
  predicate NamedBefore<T>(s: seq<T>, key: T -> string, a: nat, b: nat)
    requires a < |s| && b < |s|
  {
    exists i :: 0 <= i <= a && key(s[i]) == key(s[a]) && forall j :: 0 <= j <= i ==> key(s[j]) != key(s[b])
  }

  lemma {:induction false} NamesOrder<T>(s: seq<T>, key: T -> string, i: nat, b: nat)
    requires i < b < |s| && forall j :: 0 <= j <= i ==> key(s[j]) != key(s[b])
    ensures Before(Names(s, key), key(s[i]), key(s[b]))
  {
    var front := s[..|s| - 1];
    var ns := Names(front, key);
    assert key(front[i]) in ns;
    if key(s[b]) in ns {
      NamesFrom(front, key, key(s[b]));
      var c :| 0 <= c < |front| && key(front[c]) == key(s[b]);
      NamesOrder(front, key, i, c);
      BeforeAppend(ns, [key(s[|s| - 1])], key(s[i]), key(s[b]));
    } else {
      assert b == |s| - 1;
      BeforeAppend(ns, [key(s[b])], key(s[i]), key(s[b]));
    }
  }

  lemma {:induction false} GroupByKeeps<T>(names: seq<string>, s: seq<T>, key: T -> string, n: string, x: T)
    requires n in names && x in Filter(s, key, n)
    ensures x in GroupBy(names, s, key)
  {
    if n != names[|names| - 1] {
      GroupByKeeps(names[..|names| - 1], s, key, n, x);
    }
  }

  lemma {:induction false} GroupByWithin<T>(names: seq<string>, s: seq<T>, key: T -> string, n: string, x: T, y: T)
    requires n in names && Before(Filter(s, key, n), x, y)
    ensures Before(GroupBy(names, s, key), x, y)
  {
    var init, last := names[..|names| - 1], names[|names| - 1];
    if n != last {
      GroupByWithin(init, s, key, n, x, y);
    }
    BeforeAppend(GroupBy(init, s, key), Filter(s, key, last), x, y);
  }

  lemma {:induction false} GroupByAcross<T>(names: seq<string>, s: seq<T>, key: T -> string, m: string, n: string, x: T, y: T)
    requires Before(names, m, n) && x in Filter(s, key, m) && y in Filter(s, key, n)
    ensures Before(GroupBy(names, s, key), x, y)
  {
    var init, last := names[..|names| - 1], names[|names| - 1];
    var i, j :| 0 <= i < j < |names| && names[i] == m && names[j] == n;
    if j < |names| - 1 {
      assert init[i] == m && init[j] == n;
      GroupByAcross(init, s, key, m, n, x, y);
    } else {
      assert init[i] == m;
      GroupByKeeps(init, s, key, m, x);
    }
    BeforeAppend(GroupBy(init, s, key), Filter(s, key, last), x, y);
  }

  /** Listed by first appearance of the name, and then by age. */
  lemma GroupedOrder<T>(s: seq<T>, key: T -> string, a: nat, b: nat)
    requires a < |s| && b < |s|
    requires if key(s[a]) == key(s[b]) then a < b else NamedBefore(s, key, a, b)
    ensures Before(Grouped(s, key), s[a], s[b])
  {
    var names := Names(s, key);
    if key(s[a]) == key(s[b]) {
      FilterOrder(s, key, a, b);
      GroupByWithin(names, s, key, key(s[a]), s[a], s[b]);
    } else {
      var i :| 0 <= i <= a && key(s[i]) == key(s[a]) && forall j :: 0 <= j <= i ==> key(s[j]) != key(s[b]);
      NamesOrder(s, key, i, b);
      FilterKeeps(s, key, a);
      FilterKeeps(s, key, b);
      GroupByAcross(names, s, key, key(s[a]), key(s[b]), s[a], s[b]);
    }
  }

  /** A total over sections. */
  function Sum<T>(s: seq<T>, weight: T -> nat): nat {
    if s == [] then 0 else Sum(s[..|s| - 1], weight) + weight(s[|s| - 1])
  }

  lemma {:induction false} SumAppend<T>(a: seq<T>, b: seq<T>, weight: T -> nat)
    ensures Sum(a + b, weight) == Sum(a, weight) + Sum(b, weight)
  {
    if b == [] {
      assert a + b == a;
    } else {
      SumAppend(a, b[..|b| - 1], weight);
      assert (a + b)[..|a + b| - 1] == a + b[..|b| - 1];
    }
  }

  lemma SumMore<T>(s: seq<T>, x: T, weight: T -> nat)
    ensures Sum(s + [x], weight) == Sum(s, weight) + weight(x)
  {
    assert (s + [x])[..|s|] == s;
  }

  lemma SumFilterMore<T>(s: seq<T>, x: T, key: T -> string, n: string, weight: T -> nat)
    ensures Sum(Filter(s + [x], key, n), weight) == Sum(Filter(s, key, n), weight) + if key(x) == n then weight(x) else 0
  {
    FilterMore(s, x, key, n);
    SumMore(Filter(s, key, n), x, weight);
  }

  lemma {:induction false} SumGroupBy<T>(names: seq<string>, s: seq<T>, x: T, key: T -> string, weight: T -> nat)
    requires forall i, j :: 0 <= i < j < |names| ==> names[i] != names[j]
    ensures Sum(GroupBy(names, s + [x], key), weight) == Sum(GroupBy(names, s, key), weight) + if key(x) in names then weight(x) else 0
  {
    if names != [] {
      var init, n := names[..|names| - 1], names[|names| - 1];
      SumGroupBy(init, s, x, key, weight);
      SumFilterMore(s, x, key, n, weight);
      SumAppend(GroupBy(init, s, key), Filter(s, key, n), weight);
      SumAppend(GroupBy(init, s + [x], key), Filter(s + [x], key, n), weight);
      assert names == init + [n] && n !in init;
    }
  }

  /** Grouping loses and repeats nothing. */
  lemma {:induction false} SumGrouped<T>(s: seq<T>, key: T -> string, weight: T -> nat)
    ensures Sum(Grouped(s, key), weight) == Sum(s, weight)
  {
    if s != [] {
      var front, x := s[..|s| - 1], s[|s| - 1];
      assert s == front + [x];
      SumGrouped(front, key, weight);
      SumMore(front, x, weight);
      if key(x) in Names(front, key) {
        NamesMore(front, x, key);
        SumGroupBy(Names(front, key), front, x, key, weight);
      } else {
        GroupedNew(front, x, key);
        SumMore(Grouped(front, key), x, weight);
      }
    }
  }

  /** The oldest section comes first. */
  lemma {:induction false} GroupedFirst<T>(s: seq<T>, key: T -> string)
    requires s != []
    ensures Grouped(s, key) != [] && Grouped(s, key)[0] == s[0]
  {
    FirstOfGroup(Names(s, key), s, key);
  }

  lemma GroupedFacts<T>(s: seq<T>, key: T -> string, weight: T -> nat, g: seq<T>)
    requires s != [] && g == Grouped(s, key)
    ensures g != [] && g[0] == s[0] && Sum(g, weight) == Sum(s, weight)
  {
    GroupedFirst(s, key);
    SumGrouped(s, key, weight);
  }

  lemma {:induction false} FirstOfGroup<T>(names: seq<string>, s: seq<T>, key: T -> string)
    requires s != [] && names != [] && names[0] == key(s[0])
    ensures GroupBy(names, s, key) != [] && GroupBy(names, s, key)[0] == s[0]
  {
    if |names| == 1 {
      FirstOfFilter(s, key);
    } else {
      FirstOfGroup(names[..|names| - 1], s, key);
    }
  }

  lemma {:induction false} FirstOfFilter<T>(s: seq<T>, key: T -> string)
    requires s != []
    ensures Filter(s, key, key(s[0])) != [] && Filter(s, key, key(s[0]))[0] == s[0]
  {
    if |s| > 1 {
      FirstOfFilter(s[..|s| - 1], key);
    }
  }

  // ----- sections -----

  /** A section: its options, and the order they were given in. */
  datatype Sect = Sect(fqn: string, options: map<string, string>, order: seq<string>) {

    /** A missing option reads as the empty string. */
    function ValueOf(key: string): string {
      if key in options then options[key] else ""
    }

    /** addOption */
    function With(key: string, value: string): Sect {
      Sect(fqn, options[key := value], order + [key])
    }
  }

  const FQN: Sect -> string := (s: Sect) => s.fqn
  const ONE: Sect -> nat := (s: Sect) => 1
  const OPTIONS: Sect -> nat := (s: Sect) => |s.order|
  const GLOBALS: Sect -> nat := (s: Sect) => if s.fqn == "global" then 1 else 0

  function NewSect(fqn: string): Sect {
    Sect(fqn, map[], [])
  }

  // ----- printing -----

  function OptionLine(s: Sect, i: nat): string
    requires i < |s.order|
  {
    OptionText(s.order[i], s.ValueOf(s.order[i]))
  }

  function OptionLines(s: Sect, n: nat): (ls: seq<string>)
    requires n <= |s.order|
    ensures |ls| == n && forall i :: 0 <= i < n ==> ls[i] == OptionLine(s, i)
  {
    if n == 0 then [] else OptionLines(s, n - 1) + [OptionLine(s, n - 1)]
  }

  function HeaderLines(fqn: string): seq<string> {
    if fqn == "global" then [] else [HeaderText(fqn)]
  }

  /** The lines of Section.String. */
  function SectionLines(s: Sect): seq<string> {
    HeaderLines(s.fqn) + OptionLines(s, |s.order|)
  }

  /** The lines of Save: an empty one after each section. */
  function SaveLines(ss: seq<Sect>): seq<string> {
    if ss == [] then [] else SaveLines(ss[..|ss| - 1]) + (SectionLines(ss[|ss| - 1]) + [""])
  }

  /** How a section is printed: its header in brackets, unless it is "global", then one line for every option listed. */
  lemma SectionPrinted(s: Sect)
    ensures var ls := SectionLines(s); var h := if s.fqn == "global" then 0 else 1;
            && |ls| == h + |s.order| && (s.fqn != "global" ==> ls[0] == "[" + s.fqn + "]")
            && forall i: nat :: i < |s.order| ==>
                 ls[h + i] == if s.order[i] in s.options && s.options[s.order[i]] != "" then s.order[i] + "=" + s.options[s.order[i]]
                              else s.order[i]
  {
  }

  // ----- reading -----

  /** What one line does to the sections read so far; options go to the last one. */
  function Take(ss: seq<Sect>, line: Line): (r: seq<Sect>)
    requires ss != []
    ensures r != [] && r[0].fqn == ss[0].fqn
  {
    match line
    case Skip => ss
    case Header(name) => ss + [NewSect(name)]
    case Opt(key, value) => ss[|ss| - 1 := ss[|ss| - 1].With(key, value)]
  }

  function ReadOn(ss: seq<Sect>, ts: seq<string>): (r: seq<Sect>)
    requires ss != []
    ensures r != [] && r[0].fqn == ss[0].fqn
  {
    if ts == [] then ss else Take(ReadOn(ss, ts[..|ts| - 1]), Classify(ts[|ts| - 1]))
  }

  /** The sections in the order they are read, before they are grouped. */
  function ReadFlat(ts: seq<string>): (r: seq<Sect>)
    ensures r != [] && r[0].fqn == "global"
  {
    ReadOn([NewSect("global")], ts)
  }

  lemma {:induction false} ReadOnAppend(ss: seq<Sect>, a: seq<string>, b: seq<string>)
    requires ss != []
    ensures ReadOn(ss, a + b) == ReadOn(ReadOn(ss, a), b)
  {
    if b == [] {
      assert a + b == a;
    } else {
      ReadOnAppend(ss, a, b[..|b| - 1]);
      assert (a + b)[..|a + b| - 1] == a + b[..|b| - 1];
    }
  }

  // ----- reading what was printed -----

  /** The keys of the options among some lines, in order. */
  function KeysOf(ts: seq<string>): seq<string> {
    if ts == [] then []
    else KeysOf(ts[..|ts| - 1]) + if Classify(ts[|ts| - 1]).Opt? then [Classify(ts[|ts| - 1]).key] else []
  }

  /** Line `i` is the last one that gives `key` a value. */
  predicate LastFor(ts: seq<string>, i: nat, key: string) {
    && i < |ts| && Classify(ts[i]).Opt? && Classify(ts[i]).key == key
    && forall j :: i < j < |ts| && Classify(ts[j]).Opt? ==> Classify(ts[j]).key != key
  }

  predicate NoHeader(ts: seq<string>) {
    forall i :: 0 <= i < |ts| ==> !Classify(ts[i]).Header?
  }

  lemma LastForMore(ts: seq<string>, line: string, i: nat, key: string)
    ensures LastFor(ts + [line], i, key)
       <==> if i == |ts| then Classify(line).Opt? && Classify(line).key == key
            else LastFor(ts, i, key) && !(Classify(line).Opt? && Classify(line).key == key)
  {
    var all := ts + [line];
    assert all[|ts|] == line && forall j :: 0 <= j < |ts| ==> all[j] == ts[j];
  }

  /** The section that lines without a header add to. */
  ghost predicate Gathers(s: Sect, ts: seq<string>) {
    && s.order == KeysOf(ts) && (forall k :: k in s.options <==> k in s.order)
    && forall i: nat, k :: LastFor(ts, i, k) ==> k in s.options && s.options[k] == Classify(ts[i]).value
  }

  lemma GathersMore(s: Sect, ts: seq<string>, line: string)
    requires Gathers(s, ts) && !Classify(line).Header?
    ensures Gathers(if Classify(line).Opt? then s.With(Classify(line).key, Classify(line).value) else s, ts + [line])
  {
    assert (ts + [line])[..|ts|] == ts;
    forall i: nat, k
      ensures LastFor(ts + [line], i, k)
         <==> if i == |ts| then Classify(line).Opt? && Classify(line).key == k
              else LastFor(ts, i, k) && !(Classify(line).Opt? && Classify(line).key == k)
    {
      LastForMore(ts, line, i, k);
    }
  }

  /**
   * The options up to the next header belong to the section of the last one: all keys are listed in their order, repeated
   * ones too, each has the value given last, and comments and empty lines do nothing.
   */
  lemma {:induction false} SectionOfLines(rs: seq<Sect>, name: string, ts: seq<string>)
    requires NoHeader(ts)
    ensures var r := ReadOn(rs + [NewSect(name)], ts);
            && |r| == |rs| + 1 && r[..|rs|] == rs && r[|rs|].fqn == name && Gathers(r[|rs|], ts)
  {
    if ts != [] {
      var front, last := ts[..|ts| - 1], ts[|ts| - 1];
      assert ts == front + [last];
      SectionOfLines(rs, name, front);
      GathersMore(ReadOn(rs + [NewSect(name)], front)[|rs|], front, last);
    }
  }

  /** Reading starts with a section "global"; a header starts a new section after those there are. */
  lemma HeaderStarts(a: seq<string>, header: string)
    requires Classify(header).Header?
    ensures ReadFlat([]) == [NewSect("global")]
    ensures ReadFlat(a + [header]) == ReadFlat(a) + [NewSect(Classify(header).name)]
  {
    assert (a + [header])[..|a|] == a;
  }

  function Parsed(s: Sect, i: nat): Line
    requires i < |s.order|
  {
    Classify(DropCR(OptionLine(s, i)))
  }

  /** What the printed options of a section mean when they are read again. */
  function Reread(s: Sect): (ls: seq<Line>)
    ensures |ls| == |s.order| && forall i :: 0 <= i < |ls| ==> ls[i] == Parsed(s, i)
  {
    seq(|s.order|, i requires 0 <= i < |s.order| => Parsed(s, i))
  }

  predicate AllOptions(ls: seq<Line>) {
    forall i :: 0 <= i < |ls| ==> ls[i].Opt?
  }

  /** The section these options make. */
  function Rebuilt(fqn: string, ls: seq<Line>): (r: Sect)
    requires AllOptions(ls)
    ensures r.fqn == fqn && |r.order| == |ls|
  {
    if ls == [] then NewSect(fqn)
    else Rebuilt(fqn, ls[..|ls| - 1]).With(ls[|ls| - 1].key, ls[|ls| - 1].value)
  }

  lemma TakeOption(ss: seq<Sect>, r: Sect, key: string, value: string)
    ensures Take(ss + [r], Opt(key, value)) == ss + [r.With(key, value)]
  {
  }

  lemma {:induction false} ReadOptions(ss: seq<Sect>, fqn: string, ts: seq<string>, ls: seq<Line>)
    requires |ts| == |ls| && AllOptions(ls) && forall i :: 0 <= i < |ts| ==> Classify(ts[i]) == ls[i]
    ensures ReadOn(ss + [NewSect(fqn)], ts) == ss + [Rebuilt(fqn, ls)]
  {
    if ts != [] {
      var n := |ts| - 1;
      ReadOptions(ss, fqn, ts[..n], ls[..n]);
      TakeOption(ss, Rebuilt(fqn, ls[..n]), ls[n].key, ls[n].value);
    }
  }

  lemma {:induction false} RebuiltOrder(fqn: string, ls: seq<Line>, i: nat)
    requires i < |ls| && AllOptions(ls)
    ensures Rebuilt(fqn, ls).order[i] == ls[i].key
  {
    if i < |ls| - 1 {
      RebuiltOrder(fqn, ls[..|ls| - 1], i);
    }
  }

  lemma {:induction false} RebuiltKeys(fqn: string, ls: seq<Line>, k: string)
    requires AllOptions(ls)
    ensures k in Rebuilt(fqn, ls).options <==> k in Rebuilt(fqn, ls).order
  {
    if ls != [] {
      RebuiltKeys(fqn, ls[..|ls| - 1], k);
    }
  }

  /** Equal keys have equal values. */
  predicate Functional(ls: seq<Line>)
    requires AllOptions(ls)
  {
    forall i, j :: 0 <= i < j < |ls| && ls[i].key == ls[j].key ==> ls[i] == ls[j]
  }

  lemma {:induction false} RebuiltValue(fqn: string, ls: seq<Line>, i: nat)
    requires i < |ls| && AllOptions(ls) && Functional(ls)
    ensures ls[i].key in Rebuilt(fqn, ls).options && Rebuilt(fqn, ls).options[ls[i].key] == ls[i].value
  {
    if ls[i].key != ls[|ls| - 1].key {
      RebuiltValue(fqn, ls[..|ls| - 1], i);
    }
  }

  /** Every option is good, and all options are in the order list. */
  predicate GoodOptions(s: Sect) {
    && (forall k :: k in s.options ==> k in s.order)
    && (forall k :: k in s.order ==> k in s.options && GoodOption(k, s.options[k]))
  }

  lemma GoodReread(s: Sect, i: nat)
    requires i < |s.order|
    ensures Parsed(s, i) == Opt(s.order[i], s.ValueOf(s.order[i])) <==> GoodOption(s.order[i], s.ValueOf(s.order[i]))
  {
    OptionSurvives(s.order[i], s.ValueOf(s.order[i]));
  }

  lemma SameOptions(s: Sect, ls: seq<Line>)
    requires |ls| == |s.order| && (forall k :: k in s.options <==> k in s.order)
    requires forall i :: 0 <= i < |ls| ==> ls[i] == Opt(s.order[i], s.ValueOf(s.order[i]))
    ensures Rebuilt(s.fqn, ls) == s
  {
    var r := Rebuilt(s.fqn, ls);
    forall i: nat | i < |ls|
      ensures r.order[i] == s.order[i]
    {
      RebuiltOrder(s.fqn, ls, i);
    }
    assert r.order == s.order;
    forall k
      ensures k in r.options <==> k in s.options
    {
      RebuiltKeys(s.fqn, ls, k);
    }
    forall k | k in s.options
      ensures r.options[k] == s.options[k]
    {
      var i :| 0 <= i < |s.order| && s.order[i] == k;
      RebuiltValue(s.fqn, ls, i);
    }
    assert r.options == s.options;
  }

  lemma RebuiltKeepsGood(s: Sect)
    requires GoodOptions(s)
    ensures AllOptions(Reread(s)) && Rebuilt(s.fqn, Reread(s)) == s
  {
    forall i | 0 <= i < |s.order|
      ensures Reread(s)[i] == Opt(s.order[i], s.ValueOf(s.order[i]))
    {
      GoodReread(s, i);
    }
    SameOptions(s, Reread(s));
  }

  /** When the keys come back, equal keys have equal lines. */
  lemma RereadIsFunctional(s: Sect)
    requires AllOptions(Reread(s)) && forall i :: 0 <= i < |s.order| ==> Reread(s)[i].key == s.order[i]
    ensures Functional(Reread(s))
  {
    forall i, j | 0 <= i < j < |s.order| && Reread(s)[i].key == Reread(s)[j].key
      ensures Reread(s)[i] == Reread(s)[j]
    {
      assert OptionLine(s, i) == OptionLine(s, j);
    }
  }

  lemma RebuiltNeedsGood(s: Sect)
    requires AllOptions(Reread(s)) && Rebuilt(s.fqn, Reread(s)) == s
    ensures GoodOptions(s)
  {
    var ls := Reread(s);
    forall k
      ensures k in s.options <==> k in s.order
    {
      RebuiltKeys(s.fqn, ls, k);
    }
    forall i | 0 <= i < |ls|
      ensures ls[i].key == s.order[i]
    {
      RebuiltOrder(s.fqn, ls, i);
    }
    RereadIsFunctional(s);
    forall i | 0 <= i < |ls|
      ensures GoodOption(s.order[i], s.options[s.order[i]])
    {
      RebuiltValue(s.fqn, ls, i);
      GoodReread(s, i);
    }
  }

  /** A section comes back the same exactly when its options are good. */
  lemma RebuiltIsSame(s: Sect)
    ensures (AllOptions(Reread(s)) && Rebuilt(s.fqn, Reread(s)) == s) <==> GoodOptions(s)
  {
    if GoodOptions(s) {
      RebuiltKeepsGood(s);
    } else if AllOptions(Reread(s)) && Rebuilt(s.fqn, Reread(s)) == s {
      RebuiltNeedsGood(s);
    }
  }
}
