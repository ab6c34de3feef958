/**
 The migration planner (pkg/pgmodel/migrate.go). Each versioned script belongs to the version of
 its directory with its number as one more pre-release identifier; an upgrade runs the scripts
 between two versions in the precedence order of section 11 of Semantic Versioning 2.0.0.
 Versions have no build metadata, so a version and its text stand for each other.
 */
module Migrate {
  import opened Sorting

  // ---------- Precedence ----------

  datatype Identifier = Num(n: nat) | Alnum(s: string)
  datatype Version = Version(major: nat, minor: nat, patch: nat, pre: seq<Identifier>)

  const NO_VERSION := Version(0, 0, 0, [])

  /** A three-way comparison that is a total order. */
  ghost predicate IsOrder<T(!new)>(cmp: (T, T) -> int) {
    && (forall a, b :: cmp(a, b) == 0 <==> a == b)
    && (forall a, b :: cmp(a, b) < 0 <==> cmp(b, a) > 0)
    && (forall a, b, c :: cmp(a, b) <= 0 && cmp(b, c) <= 0 ==> cmp(a, c) <= 0)
  }

  function CompareInts(a: int, b: int): int {
    if a < b then -1 else if a > b then 1 else 0
  }

  function CompareChars(a: char, b: char): int {
    CompareInts(a as int, b as int)
  }

  /** Element by element; a sequence comes after its prefixes. */
  function Lexicographic<T(!new)>(a: seq<T>, b: seq<T>, cmp: (T, T) -> int): int {
    if a == [] then if b == [] then 0 else -1
    else if b == [] then 1
    else if cmp(a[0], b[0]) != 0 then cmp(a[0], b[0])
    else Lexicographic(a[1..], b[1..], cmp)
  }

  lemma {:induction false} LexicographicEqual<T(!new)>(a: seq<T>, b: seq<T>, cmp: (T, T) -> int)
    requires IsOrder(cmp)
    ensures Lexicographic(a, b, cmp) == 0 <==> a == b
    ensures Lexicographic(a, b, cmp) < 0 <==> Lexicographic(b, a, cmp) > 0
    decreases |a|
  {
    if a != [] && b != [] {
      LexicographicEqual(a[1..], b[1..], cmp);
      assert a == [a[0]] + a[1..] && b == [b[0]] + b[1..];
    }
  }

  lemma {:induction false} LexicographicTransitive<T(!new)>(a: seq<T>, b: seq<T>, c: seq<T>, cmp: (T, T) -> int)
    requires IsOrder(cmp) && Lexicographic(a, b, cmp) <= 0 && Lexicographic(b, c, cmp) <= 0
    ensures Lexicographic(a, c, cmp) <= 0
    decreases |a|
  {
    if a != [] && b != [] && c != [] && cmp(a[0], b[0]) == 0 && cmp(b[0], c[0]) == 0 {
      LexicographicTransitive(a[1..], b[1..], c[1..], cmp);
    }
  }

  lemma LexicographicIsOrder<T(!new)>(cmp: (T, T) -> int)
    requires IsOrder(cmp)
    ensures IsOrder((a: seq<T>, b: seq<T>) => Lexicographic(a, b, cmp))
  {
    forall a: seq<T>, b: seq<T> {
      LexicographicEqual(a, b, cmp);
    }
    forall a: seq<T>, b: seq<T>, c: seq<T> | Lexicographic(a, b, cmp) <= 0 && Lexicographic(b, c, cmp) <= 0 {
      LexicographicTransitive(a, b, c, cmp);
    }
  }

  function CompareStrings(a: string, b: string): int {
    Lexicographic(a, b, CompareChars)
  }

  /** Numbers by value and before words; words in ASCII order. */
  function CompareIdentifiers(a: Identifier, b: Identifier): int {
    match (a, b)
    case (Num(m), Num(n)) => CompareInts(m, n)
    case (Num(_), Alnum(_)) => -1
    case (Alnum(_), Num(_)) => 1
    case (Alnum(s), Alnum(t)) => CompareStrings(s, t)
  }

  /** A release comes after its pre-releases. */
  function ComparePre(a: seq<Identifier>, b: seq<Identifier>): int {
    if a == [] then if b == [] then 0 else 1
    else if b == [] then -1
    else Lexicographic(a, b, CompareIdentifiers)
  }

  function Compare(v: Version, w: Version): int {
    if v.major != w.major then CompareInts(v.major, w.major)
    else if v.minor != w.minor then CompareInts(v.minor, w.minor)
    else if v.patch != w.patch then CompareInts(v.patch, w.patch)
    else ComparePre(v.pre, w.pre)
  }

  lemma IdentifiersAreOrdered()
    ensures IsOrder(CompareIdentifiers)
  {
    LexicographicIsOrder(CompareChars);
    forall a, b
      ensures CompareIdentifiers(a, b) == 0 <==> a == b
      ensures CompareIdentifiers(a, b) < 0 <==> CompareIdentifiers(b, a) > 0
    {
      if a.Alnum? && b.Alnum? {
        LexicographicEqual(a.s, b.s, CompareChars);
      }
    }
    forall a, b, c | CompareIdentifiers(a, b) <= 0 && CompareIdentifiers(b, c) <= 0
      ensures CompareIdentifiers(a, c) <= 0
    {
      if a.Alnum? && b.Alnum? && c.Alnum? {
        LexicographicTransitive(a.s, b.s, c.s, CompareChars);
      }
    }
  }

  /** Precedence is a total order on versions. */
  lemma VersionsAreOrdered()
    ensures IsOrder(Compare)
  {
    IdentifiersAreOrdered();
    forall v, w
      ensures Compare(v, w) == 0 <==> v == w
      ensures Compare(v, w) < 0 <==> Compare(w, v) > 0
    {
      LexicographicEqual(v.pre, w.pre, CompareIdentifiers);
    }
    forall u, v, w | Compare(u, v) <= 0 && Compare(v, w) <= 0
      ensures Compare(u, w) <= 0
    {
      if u.pre != [] && v.pre != [] && w.pre != [] &&
         Lexicographic(u.pre, v.pre, CompareIdentifiers) <= 0 && Lexicographic(v.pre, w.pre, CompareIdentifiers) <= 0 {
        LexicographicTransitive(u.pre, v.pre, w.pre, CompareIdentifiers);
      }
    }
  }

  // ---------- Section 11 of Semantic Versioning, rule by rule ----------

  /** Words by their first difference in ASCII order; a word comes after its beginnings. */
  ghost predicate WordBefore(s: string, t: string) {
    exists i :: 0 <= i <= |s| && i < |t| && s[..i] == t[..i] && (i == |s| || s[i] < t[i])
  }

  /** Numbers by value and before words. */
  ghost predicate IdentifierBefore(a: Identifier, b: Identifier) {
    match (a, b)
    case (Num(m), Num(n)) => m < n
    case (Num(_), Alnum(_)) => true
    case (Alnum(_), Num(_)) => false
    case (Alnum(s), Alnum(t)) => WordBefore(s, t)
  }

  /** By the first different identifier; a longer list comes after its beginnings, a release after all. */
  ghost predicate PreBefore(a: seq<Identifier>, b: seq<Identifier>) {
    a != [] &&
    (b == [] || exists i :: 0 <= i <= |a| && i < |b| && a[..i] == b[..i] && (i == |a| || IdentifierBefore(a[i], b[i])))
  }

  /** Major, then minor, then patch, then pre-release. */
  ghost predicate Precedes(v: Version, w: Version) {
    || v.major < w.major
    || (v.major == w.major && v.minor < w.minor)
    || (v.major == w.major && v.minor == w.minor && v.patch < w.patch)
    || (v.major == w.major && v.minor == w.minor && v.patch == w.patch && PreBefore(v.pre, w.pre))
  }

  /** Two sequences differ first at place i, and there a comes before b. */
  ghost predicate FirstDiffers<T(!new)>(a: seq<T>, b: seq<T>, i: int, cmp: (T, T) -> int) {
    0 <= i <= |a| && i < |b| && a[..i] == b[..i] && (i == |a| || cmp(a[i], b[i]) < 0)
  }

  lemma {:induction false} LexicographicIff<T(!new)>(a: seq<T>, b: seq<T>, cmp: (T, T) -> int)
    requires IsOrder(cmp)
    ensures Lexicographic(a, b, cmp) < 0 <==> exists i :: FirstDiffers(a, b, i, cmp)
    decreases |a|
  {
    if a == [] {
      assert b != [] ==> FirstDiffers(a, b, 0, cmp);
    } else if b != [] {
      LexicographicIff(a[1..], b[1..], cmp);
      forall i | FirstDiffers(a, b, i, cmp)
        ensures cmp(a[0], b[0]) <= 0
      {
        assert i == 0 || a[..i][0] == b[..i][0];
      }
      if cmp(a[0], b[0]) < 0 {
        assert FirstDiffers(a, b, 0, cmp);
      } else if cmp(a[0], b[0]) == 0 {
        LaterDifference(a, b, cmp);
      }
    }
  }

  lemma LaterDifference<T(!new)>(a: seq<T>, b: seq<T>, cmp: (T, T) -> int)
    requires IsOrder(cmp) && a != [] && b != [] && a[0] == b[0]
    ensures (exists i :: FirstDiffers(a, b, i, cmp)) <==> exists i :: FirstDiffers(a[1..], b[1..], i, cmp)
  {
    if i :| FirstDiffers(a, b, i, cmp) {
      assert cmp(a[0], b[0]) == 0;
      assert i > 0;
      assert a[1..][..i - 1] == a[..i][1..] == b[..i][1..] == b[1..][..i - 1];
      assert FirstDiffers(a[1..], b[1..], i - 1, cmp);
    }
    if i :| FirstDiffers(a[1..], b[1..], i, cmp) {
      assert a[..i + 1] == [a[0]] + a[1..][..i] && b[..i + 1] == [b[0]] + b[1..][..i];
      assert FirstDiffers(a, b, i + 1, cmp);
    }
  }

  lemma IdentifierBeforeIff(a: Identifier, b: Identifier)
    ensures CompareIdentifiers(a, b) < 0 <==> IdentifierBefore(a, b)
  {
    if a.Alnum? && b.Alnum? {
      LexicographicIff(a.s, b.s, CompareChars);
      if i :| FirstDiffers(a.s, b.s, i, CompareChars) {
        assert WordBefore(a.s, b.s);
      }
      if i :| 0 <= i <= |a.s| && i < |b.s| && a.s[..i] == b.s[..i] && (i == |a.s| || a.s[i] < b.s[i]) {
        assert FirstDiffers(a.s, b.s, i, CompareChars);
      }
    }
  }

  lemma PreBeforeIff(a: seq<Identifier>, b: seq<Identifier>)
    ensures ComparePre(a, b) < 0 <==> PreBefore(a, b)
  {
    hide CompareIdentifiers, IdentifierBefore;
    IdentifiersAreOrdered();
    LexicographicIff(a, b, CompareIdentifiers);
    forall i | 0 <= i < |a| && i < |b|
      ensures CompareIdentifiers(a[i], b[i]) < 0 <==> IdentifierBefore(a[i], b[i])
    {
      IdentifierBeforeIff(a[i], b[i]);
    }
    if i :| FirstDiffers(a, b, i, CompareIdentifiers) {
      assert a[..i] == b[..i] && (i == |a| || IdentifierBefore(a[i], b[i]));
    }
    if i :| 0 <= i <= |a| && i < |b| && a[..i] == b[..i] && (i == |a| || IdentifierBefore(a[i], b[i])) {
      assert FirstDiffers(a, b, i, CompareIdentifiers);
    }
  }

  /** The comparison is the precedence of section 11. */
  lemma ComparesByPrecedence(v: Version, w: Version)
    ensures Compare(v, w) < 0 <==> Precedes(v, w)
  {
    hide ComparePre, PreBefore;
    PreBeforeIff(v.pre, w.pre);
  }

  function Pre(pre: seq<Identifier>): Version {
    Version(1, 0, 0, pre)
  }

  /** The example of section 11, paragraph 4. */
  lemma ExampleVersions()
    ensures Compare(Pre([Alnum("alpha")]), Pre([Alnum("alpha"), Num(1)])) < 0
    ensures Compare(Pre([Alnum("alpha"), Num(1)]), Pre([Alnum("alpha"), Alnum("beta")])) < 0
    ensures Compare(Pre([Alnum("alpha"), Alnum("beta")]), Pre([Alnum("beta")])) < 0
    ensures Compare(Pre([Alnum("beta")]), Pre([Alnum("beta"), Num(2)])) < 0
    ensures Compare(Pre([Alnum("beta"), Num(2)]), Pre([Alnum("beta"), Num(11)])) < 0
    ensures Compare(Pre([Alnum("beta"), Num(11)]), Pre([Alnum("rc"), Num(1)])) < 0
    ensures Compare(Pre([Alnum("rc"), Num(1)]), Pre([])) < 0
  {
    IdentifiersAreOrdered();
    var a, b, r := Alnum("alpha"), Alnum("beta"), Alnum("rc");
    assert CompareIdentifiers(a, b) < 0 && CompareIdentifiers(b, r) < 0;
  }

  // ---------- The scripts ----------

  datatype Parsed<T> = Parsed(value: T) | Unparsable

  /** A file with the number that its name starts with. */
  datatype File = File(name: string, number: Parsed<nat>)

  /** An entry of the directory of versions, with the version that its name stands for. */
  datatype Entry = Entry(name: string, isDir: bool, version: Parsed<Version>, files: seq<File>)

  datatype Script = Script(version: Version, path: string)

  predicate GoodEntry(d: Entry) {
    if d.isDir then forall j :: 0 <= j < |d.files| ==> d.files[j].number.Parsed? && d.version.Parsed?
    else d.name == ".gitignore"
  }

  predicate GoodFile(d: Entry, f: File) {
    f.number.Parsed? && d.version.Parsed?
  }

  /** getMigrationFileVersion (migrate.go:343-365): the number of the file is the last pre-release identifier. */
  function ScriptOf(d: Entry, f: File): Script
    requires GoodFile(d, f)
  {
    var v := d.version.value;
    Script(v.(pre := v.pre + [Num(f.number.value)]), "versions/dev/" + d.name + "/" + f.name)
  }

  lemma {:induction false} LexicographicLast<T(!new)>(a: seq<T>, x: T, y: T, cmp: (T, T) -> int)
    requires IsOrder(cmp)
    ensures Lexicographic(a + [x], a + [y], cmp) == cmp(x, y)
    decreases |a|
  {
    if a != [] {
      LexicographicLast(a[1..], x, y, cmp);
      assert (a + [x])[1..] == a[1..] + [x] && (a + [y])[1..] == a[1..] + [y];
    }
  }

  /** What the numbers of files are for: version `dir.k` includes the files of directory `dir` up to number k. */
  lemma IncludedUpToNumber(d: Entry, f: File, k: nat)
    requires GoodFile(d, f)
    ensures var v := d.version.value;
      Compare(v.(pre := v.pre + [Num(k)]), ScriptOf(d, f).version) >= 0 <==> f.number.value <= k
  {
    IdentifiersAreOrdered();
    LexicographicLast(d.version.value.pre, Num(k), Num(f.number.value), CompareIdentifiers);
  }

  /** The scripts of the first n files of a directory. */
  function ScriptsIn(d: Entry, n: nat): seq<Script>
    requires n <= |d.files|
  {
    if n == 0 then []
    else if GoodFile(d, d.files[n - 1]) then ScriptsIn(d, n - 1) + [ScriptOf(d, d.files[n - 1])]
    else ScriptsIn(d, n - 1)
  }

  function ScriptsOf(d: Entry): seq<Script> {
    if d.isDir then ScriptsIn(d, |d.files|) else []
  }

  /** The scripts of the first n entries, in the order in which they are listed. */
  function AllScripts(entries: seq<Entry>, n: nat): seq<Script>
    requires n <= |entries|
  {
    if n == 0 then [] else AllScripts(entries, n - 1) + ScriptsOf(entries[n - 1])
  }

  ghost predicate Distinct(s: seq<Script>) {
    forall i, j :: 0 <= i < j < |s| ==> s[i].version != s[j].version
  }

  lemma {:induction false} ScriptsInGrow(d: Entry, k: nat, n: nat)
    requires k <= n <= |d.files|
    ensures ScriptsIn(d, k) <= ScriptsIn(d, n)
  {
    if k < n {
      ScriptsInGrow(d, k, n - 1);
    }
  }

  lemma {:induction false} AllScriptsGrow(entries: seq<Entry>, k: nat, n: nat)
    requires k <= n <= |entries|
    ensures AllScripts(entries, k) <= AllScripts(entries, n)
  {
    hide ScriptsOf;
    if k < n {
      AllScriptsGrow(entries, k, n - 1);
    }
  }

  ghost predicate Loadable(entries: seq<Entry>) {
    (forall i :: 0 <= i < |entries| ==> GoodEntry(entries[i])) && Distinct(AllScripts(entries, |entries|))
  }

  ghost predicate SeenIn(seen: set<Version>, s: seq<Script>) {
    && (forall i :: 0 <= i < |s| ==> s[i].version in seen)
    && (forall v :: v in seen ==> exists i :: 0 <= i < |s| && s[i].version == v)
  }

  lemma SeenOneMore(seen: set<Version>, s: seq<Script>, x: Script)
    requires SeenIn(seen, s) && Distinct(s)
    ensures x.version in seen ==> !Distinct(s + [x])
    ensures x.version !in seen ==> Distinct(s + [x]) && SeenIn(seen + {x.version}, s + [x])
  {
    var t := s + [x];
    assert t[|s|] == x && forall i :: 0 <= i < |s| ==> t[i] == s[i];
    if x.version in seen {
      var i :| 0 <= i < |s| && s[i].version == x.version;
      assert t[i].version == t[|s|].version;
    } else {
      forall v | v in seen
        ensures exists i :: 0 <= i < |t| && t[i].version == v
      {
        var i :| 0 <= i < |s| && s[i].version == v;
        assert t[i].version == v;
      }
    }
  }

  /** One directory of scripts (migrate.go:402-415). */
  method LoadDirectory(d: Entry, scripts0: seq<Script>, seen0: set<Version>)
    returns (scripts: seq<Script>, seen: set<Version>, ok: bool)
    requires SeenIn(seen0, scripts0) && Distinct(scripts0) && d.isDir
    ensures ok <==> GoodEntry(d) && Distinct(scripts0 + ScriptsIn(d, |d.files|))
    ensures ok ==> scripts == scripts0 + ScriptsIn(d, |d.files|) && SeenIn(seen, scripts) && Distinct(scripts)
  {
    scripts, seen, ok := scripts0, seen0, true;
    hide SeenIn, Distinct, ScriptOf;
    for j := 0 to |d.files|
      invariant scripts == scripts0 + ScriptsIn(d, j) && SeenIn(seen, scripts) && Distinct(scripts)
      invariant forall k :: 0 <= k < j ==> GoodFile(d, d.files[k])
    {
      if !GoodFile(d, d.files[j]) {
        return scripts, seen, false;
      }
      var x := ScriptOf(d, d.files[j]);
      SeenOneMore(seen, scripts, x);
      assert scripts + [x] == scripts0 + ScriptsIn(d, j + 1);
      if x.version in seen {
        ScriptsInGrow(d, j + 1, |d.files|);
        Repeats(scripts0 + ScriptsIn(d, j + 1), scripts0 + ScriptsIn(d, |d.files|));
        return scripts, seen, false;
      }
      seen := seen + {x.version};
      scripts := scripts + [x];
    }
  }

  lemma Repeats(s: seq<Script>, t: seq<Script>)
    requires s <= t && !Distinct(s)
    ensures !Distinct(t)
  {
  }

  /** All directories (migrate.go:383-416). */
  method LoadScripts(entries: seq<Entry>) returns (scripts: seq<Script>, ok: bool)
    ensures ok <==> Loadable(entries)
    ensures ok ==> scripts == AllScripts(entries, |entries|)
  {
    hide SeenIn, ScriptsIn;
    scripts, ok := [], true;
    var seen: set<Version> := {};
    NothingSeen();
    for i := 0 to |entries|
      invariant scripts == AllScripts(entries, i) && SeenIn(seen, scripts) && Distinct(scripts)
      invariant forall k :: 0 <= k < i ==> GoodEntry(entries[k])
    {
      var d := entries[i];
      if !d.isDir {
        if d.name == ".gitignore" {
          assert scripts + [] == scripts;
          continue;
        }
        return scripts, false;
      }
      scripts, seen, ok := LoadDirectory(d, scripts, seen);
      if !ok {
        AllScriptsGrow(entries, i + 1, |entries|);
        NotLoadable(entries, i);
        return;
      }
    }
  }

  lemma NothingSeen()
    ensures SeenIn({}, []) && Distinct([])
  {
  }

  lemma NotLoadable(entries: seq<Entry>, i: nat)
    requires i < |entries| && (!GoodEntry(entries[i]) || !Distinct(AllScripts(entries, i + 1)))
    requires AllScripts(entries, i + 1) <= AllScripts(entries, |entries|)
    ensures !Loadable(entries)
  {
    hide AllScripts;
    if GoodEntry(entries[i]) {
      Repeats(AllScripts(entries, i + 1), AllScripts(entries, |entries|));
    }
  }

  // ---------- Which scripts run ----------

  predicate Between(v: Version, from: Version, to: Version) {
    Compare(from, v) < 0 && Compare(to, v) >= 0
  }

  /** The scripts, among the first n, that an upgrade runs. */
  function Selected(s: seq<Script>, n: nat, from: Version, to: Version): (r: seq<Script>)
    requires n <= |s|
    ensures forall x :: x in r <==> x in s[..n] && Between(x.version, from, to)
  {
    if n == 0 then []
    else
      assert s[..n] == s[..n - 1] + [s[n - 1]];
      if Between(s[n - 1].version, from, to) then Selected(s, n - 1, from, to) + [s[n - 1]]
      else Selected(s, n - 1, from, to)
  }

  ghost predicate Ascending(s: seq<Script>) {
    forall i, j :: 0 <= i < j < |s| ==> Compare(s[i].version, s[j].version) < 0
  }

  lemma SelectedComeBefore(s: seq<Script>, n: nat, from: Version, to: Version, i: nat)
    requires Ascending(s) && n < |s| && i < |Selected(s, n, from, to)|
    ensures Compare(Selected(s, n, from, to)[i].version, s[n].version) < 0
  {
    hide Compare, Between;
    var x := Selected(s, n, from, to)[i];
    assert x in Selected(s, n, from, to) && x in s[..n];
    var k :| 0 <= k < n && s[..n][k] == x;
    assert s[k] == x;
  }

  lemma AscendingGrows(r: seq<Script>, x: Script)
    requires Ascending(r) && forall i :: 0 <= i < |r| ==> Compare(r[i].version, x.version) < 0
    ensures Ascending(r + [x])
  {
    hide Compare;
  }

  lemma SelectedNext(s: seq<Script>, n: nat, from: Version, to: Version)
    requires n < |s|
    ensures Selected(s, n + 1, from, to) ==
            if Between(s[n].version, from, to) then Selected(s, n, from, to) + [s[n]] else Selected(s, n, from, to)
    ensures Selected(s, 0, from, to) == []
  {
    hide Compare;
  }

  lemma {:induction false} SelectedAscends(s: seq<Script>, n: nat, from: Version, to: Version)
    requires Ascending(s) && n <= |s|
    ensures Ascending(Selected(s, n, from, to))
  {
    hide Compare, Between, Selected, Ascending;
    if n == 0 {
      NothingAscends(s, from, to);
    } else {
      SelectedAscends(s, n - 1, from, to);
      SelectedNext(s, n - 1, from, to);
      var r := Selected(s, n - 1, from, to);
      forall i | 0 <= i < |r|
        ensures Compare(r[i].version, s[n - 1].version) < 0
      {
        SelectedComeBefore(s, n - 1, from, to, i);
      }
      AscendingGrows(r, s[n - 1]);
    }
  }

  lemma NothingAscends(s: seq<Script>, from: Version, to: Version)
    ensures Ascending(Selected(s, 0, from, to))
  {
  }

  lemma Precedence(u: Version, v: Version, w: Version)
    ensures Compare(u, v) <= 0 && Compare(v, w) < 0 ==> Compare(u, w) < 0
    ensures Compare(u, v) <= 0 && Compare(u, w) >= 0 ==> Compare(v, w) >= 0
    ensures Compare(u, v) < 0 <==> Compare(v, u) > 0
  {
    hide Compare;
    VersionsAreOrdered();
  }

  /** A version lies in exactly one of the two parts of a range, or outside it. */
  lemma SplitRange(v: Version, from: Version, mid: Version, to: Version)
    requires Compare(from, mid) <= 0 && Compare(mid, to) <= 0
    ensures Between(v, from, to) <==> Between(v, from, mid) || Between(v, mid, to)
    ensures !(Between(v, from, mid) && Between(v, mid, to))
  {
    hide Compare;
    Precedence(from, mid, v);
    Precedence(mid, to, v);
  }

  lemma {:induction false} NoneAbove(s: seq<Script>, k: nat, n: nat, mid: Version, to: Version)
    requires Ascending(s) && k <= n < |s| && Compare(mid, s[n].version) >= 0
    ensures Selected(s, k, mid, to) == []
  {
    hide Compare;
    if k > 0 {
      NoneAbove(s, k - 1, n, mid, to);
      assert Compare(s[k - 1].version, s[n].version) < 0;
      Precedence(mid, s[k - 1].version, s[n].version);
    }
  }

  /** Going through a version in between runs the same scripts, each once and in the same order. */
  lemma {:induction false} UpgradesCompose(s: seq<Script>, n: nat, from: Version, mid: Version, to: Version)
    requires Ascending(s) && n <= |s| && Compare(from, mid) <= 0 && Compare(mid, to) <= 0
    ensures Selected(s, n, from, to) == Selected(s, n, from, mid) + Selected(s, n, mid, to)
  {
    hide Compare, Between, Ascending;
    if n > 0 {
      UpgradesCompose(s, n - 1, from, mid, to);
      SplitRange(s[n - 1].version, from, mid, to);
      var a, b, x := Selected(s, n - 1, from, mid), Selected(s, n - 1, mid, to), [s[n - 1]];
      if Between(s[n - 1].version, from, mid) {
        assert Compare(mid, s[n - 1].version) >= 0 by { AtMost(s[n - 1].version, from, mid); }
        NoneAbove(s, n - 1, n - 1, mid, to);
        assert a + b + x == a + x + b;
      } else if Between(s[n - 1].version, mid, to) {
        assert a + b + x == a + (b + x);
      }
    }
  }

  lemma AtMost(v: Version, from: Version, to: Version)
    requires Between(v, from, to)
    ensures Compare(to, v) >= 0
  {
  }

  // ---------- The upgrade ----------

  predicate ByVersion(x: Script, y: Script) {
    Compare(x.version, y.version) <= 0
  }

  lemma ByVersionIsOrder()
    ensures TotalOrder(ByVersion)
  {
    hide Compare;
    VersionsAreOrdered();
  }

  lemma SortedAscends(s: seq<Script>, t: seq<Script>)
    requires Distinct(s) && Permutation(s, t) && Sorted(t, ByVersion)
    ensures Ascending(t)
  {
    hide Compare;
    VersionsAreOrdered();
    DistinctPermutes(s, t);
    forall i, j | 0 <= i < j < |t|
      ensures Compare(t[i].version, t[j].version) < 0
    {
      assert ByVersion(t[i], t[j]);
    }
  }

  lemma DistinctPermutes(s: seq<Script>, t: seq<Script>)
    requires Distinct(s) && Permutation(s, t)
    ensures Distinct(t)
  {
    forall i, j | 0 <= i < j < |t|
      ensures t[i].version != t[j].version
    {
      assert t == t[..i] + [t[i]] + t[i + 1..j] + [t[j]] + t[j + 1..];
      assert t[i] in multiset(t) && t[j] in multiset(t);
      var a :| 0 <= a < |s| && s[a] == t[i];
      var b :| 0 <= b < |s| && s[b] == t[j];
      if t[i] == t[j] {
        assert multiset(t)[t[i]] >= 2;
        OnceIfDistinct(s, |s|, t[i]);
      }
    }
  }

  lemma {:induction false} OnceIfDistinct(s: seq<Script>, n: nat, x: Script)
    requires Distinct(s) && n <= |s|
    ensures multiset(s[..n])[x] <= 1
    ensures n == |s| ==> multiset(s)[x] <= 1
  {
    if n > 0 {
      OnceIfDistinct(s, n - 1, x);
      assert s[..n] == s[..n - 1] + [s[n - 1]];
      if s[n - 1] == x {
        assert x !in s[..n - 1];
        assert multiset(s[..n - 1])[x] == 0;
      }
    }
    assert n == |s| ==> s[..n] == s;
  }

  /** upgradeVersion (migrate.go:369-431). A script may fail; what ran before it is rolled back. */
  method UpgradeVersion(entries: seq<Entry>, from: Version, to: Version, fails: Script -> bool)
    returns (ran: seq<Script>, loaded: bool, ok: bool, ghost sorted: seq<Script>)
    ensures loaded <==> Loadable(entries)
    ensures ok <==> loaded && forall x :: x in Selected(sorted, |sorted|, from, to) ==> !fails(x)
    ensures loaded ==> Ascending(sorted) && Permutation(AllScripts(entries, |entries|), sorted)
    ensures ok ==> ran == Selected(sorted, |sorted|, from, to)
    ensures loaded && !ok ==> var all := Selected(sorted, |sorted|, from, to);
      ran < all && fails(all[|ran|]) && forall x :: x in ran ==> !fails(x)
  {
    hide Compare, Ascending, AllScripts;
    ran, ok, sorted := [], false, [];
    var scripts;
    scripts, loaded := LoadScripts(entries);
    if !loaded {
      return;
    }
    ByVersionIsOrder();
    var versions := Sort(scripts, ByVersion);
    sorted := versions;
    SortedAscends(scripts, versions);
    for i := 0 to |versions|
      invariant ran == Selected(versions, i, from, to) && forall x :: x in ran ==> !fails(x)
    {
      if Between(versions[i].version, from, to) {
        if fails(versions[i]) {
          SelectedGrows(versions, i + 1, |versions|, from, to);
          assert Selected(versions, i + 1, from, to) == ran + [versions[i]];
          assert Selected(versions, |versions|, from, to)[|ran|] == versions[i];
          return;
        }
        ran := ran + [versions[i]];
      }
    }
    ok := true;
  }

  lemma {:induction false} SelectedGrows(s: seq<Script>, k: nat, n: nat, from: Version, to: Version)
    requires k <= n <= |s|
    ensures Selected(s, k, from, to) <= Selected(s, n, from, to)
  {
    if k < n {
      SelectedGrows(s, k, n - 1, from, to);
    }
  }

  // ---------- The order of the listing does not matter ----------

  lemma LastIsNewest(s: seq<Script>, x: Script)
    requires Ascending(s) && x in s
    ensures x == s[|s| - 1] || (x in s[..|s| - 1] && Compare(x.version, s[|s| - 1].version) < 0)
  {
    hide Compare;
    var i :| 0 <= i < |s| && s[i] == x;
    assert i < |s| - 1 ==> s[..|s| - 1][i] == x;
  }

  lemma AscendingPrefix(s: seq<Script>)
    requires s != [] && Ascending(s)
    ensures Ascending(s[..|s| - 1])
  {
    hide Compare;
  }

  lemma {:induction false} AscendingIsUnique(s: seq<Script>, t: seq<Script>)
    requires Ascending(s) && Ascending(t) && Permutation(s, t)
    ensures s == t
  {
    hide Compare, Ascending;
    if s == [] {
      assert |multiset(t)| == 0;
    } else {
      assert s[|s| - 1] in multiset(s) && t != [] && t[|t| - 1] in multiset(t);
      LastIsNewest(t, s[|s| - 1]);
      LastIsNewest(s, t[|t| - 1]);
      Precedence(s[|s| - 1].version, t[|t| - 1].version, s[|s| - 1].version);
      DropLast(s, t);
      AscendingPrefix(s);
      AscendingPrefix(t);
      AscendingIsUnique(s[..|s| - 1], t[..|t| - 1]);
      assert s == s[..|s| - 1] + [s[|s| - 1]] && t == t[..|t| - 1] + [t[|t| - 1]];
    }
  }

  // ---------- The decision ----------

  datatype Action = Preinstall | Upgrade(scripts: seq<Script>) | Idempotent | SetVersion(version: Version)
  datatype Outcome = Committed(actions: seq<Action>) | Refused | RolledBack

  predicate IsDev(v: Version) {
    Alnum("dev") in v.pre
  }

  /** Migrate (migrate.go:100-172); `commits` says whether the steps after the versioned scripts succeed. */
  method Migrate(db: Version, app: Version, entries: seq<Entry>, fails: Script -> bool, commits: bool)
    returns (o: Outcome, ghost sorted: seq<Script>)
    ensures o == Refused <==> Compare(db, app) > 0
    ensures db == app && !IsDev(app) ==> o == Committed([])
    ensures db == app && IsDev(app) ==> o == if commits then Committed([Idempotent]) else RolledBack
    ensures Compare(db, app) < 0 && db == NO_VERSION ==>
      o == if commits then Committed([Preinstall, Idempotent, SetVersion(app)]) else RolledBack
    ensures Compare(db, app) < 0 && db != NO_VERSION && Loadable(entries) ==>
      Ascending(sorted) && Permutation(AllScripts(entries, |entries|), sorted)
    ensures Compare(db, app) < 0 && db != NO_VERSION ==> var scripts := Selected(sorted, |sorted|, db, app);
      o == if commits && Loadable(entries) && (forall x :: x in scripts ==> !fails(x))
           then Committed([Upgrade(scripts), Idempotent, SetVersion(app)]) else RolledBack
  {
    VersionsAreOrdered();
    hide Compare, Ascending, AllScripts, Selected, Loadable;
    sorted := [];
    if Compare(db, app) == 0 {
      return if !IsDev(app) then Committed([]) else if commits then Committed([Idempotent]) else RolledBack, sorted;
    }
    if Compare(db, app) > 0 {
      return Refused, sorted;
    }
    var first := Preinstall;
    if Compare(db, NO_VERSION) != 0 {
      var ran, loaded, ok;
      ran, loaded, ok, sorted := UpgradeVersion(entries, db, app, fails);
      if !ok {
        return RolledBack, sorted;
      }
      first := Upgrade(ran);
    }
    return if commits then Committed([first, Idempotent, SetVersion(app)]) else RolledBack, sorted;
  }
}
