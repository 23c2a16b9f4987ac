/** Schema migrations: which sets of script files are accepted, and how they are applied over starts
that may each fail anywhere.
*/
module Migrations {
  import opened Wrappers
  import opened Text
  import opened Sorting

  /** A directory entry, with the file's contents. */
  datatype Entry = Entry(name: string, isDir: bool, sql: string)

  datatype Migration = Migration(version: int, name: string, sql: string)

  datatype Error = BadName | BadVersion | NotContiguous

  type Scripts = seq<Migration>

  // ---------------- Loading ----------------

  predicate IsScript(e: Entry) {
    !e.isDir && |e.name| >= 4 && e.name[|e.name| - 4..] == ".sql"
  }

  /** `NNNN_name.sql`. */
  function Parse(e: Entry): Result<Migration, Error>
    requires IsScript(e)
  {
    var base := e.name[..|e.name| - 4];
    if '_' !in base then Err(BadName)
    else
      match Atoi(base[..Index(base, '_')])
      case None => Err(BadVersion)
      case Some(v) => Ok(Migration(v, base[Index(base, '_') + 1..], e.sql))
  }

  function ParseAll(entries: seq<Entry>): Result<Scripts, Error> {
    if entries == [] then Ok([])
    else
      var last := entries[|entries| - 1];
      match ParseAll(entries[..|entries| - 1])
      case Err(e) => Err(e)
      case Ok(ms) =>
        if !IsScript(last) then Ok(ms)
        else match Parse(last)
          case Err(e) => Err(e)
          case Ok(m) => Ok(ms + [m])
  }

  predicate ByVersion(a: Migration, b: Migration) {
    a.version <= b.version
  }

  predicate Contiguous(ms: Scripts) {
    forall i :: 0 <= i < |ms| ==> ms[i].version == i + 1
  }

  function Load(entries: seq<Entry>): Result<Scripts, Error> {
    match ParseAll(entries)
    case Err(e) => Err(e)
    case Ok(ms) => if Contiguous(Sort(ms, ByVersion)) then Ok(Sort(ms, ByVersion)) else Err(NotContiguous)
  }

  lemma ParseAllStops(entries: seq<Entry>, n: nat)
    requires n <= |entries| && ParseAll(entries[..n]).Err?
    ensures ParseAll(entries) == ParseAll(entries[..n])
    decreases |entries|
  {
    if n < |entries| {
      assert entries[..|entries| - 1][..n] == entries[..n];
      ParseAllStops(entries[..|entries| - 1], n);
    } else {
      assert entries[..n] == entries;
    }
  }

  method LoadMigrations(entries: seq<Entry>) returns (r: Result<Scripts, Error>)
    ensures r.Ok? ==> Contiguous(r.value) && Listed(entries, r.value)
    ensures r.Err? ==> !Loadable(entries)
    ensures r == Load(entries)
  {
    var out: Scripts := [];
    for n := 0 to |entries|
      invariant ParseAll(entries[..n]) == Ok(out)
    {
      assert entries[..n + 1][..n] == entries[..n];
      if !IsScript(entries[n]) {
        continue;
      }
      var m := Parse(entries[n]);
      if m.Err? {
        ParseAllStops(entries, n + 1);
        LoadedExactly(entries);
        return Err(m.error);
      }
      out := out + [m.value];
    }
    assert entries[..|entries|] == entries;
    LoadedExactly(entries);
    out := Sort(out, ByVersion);
    for i := 0 to |out|
      invariant forall j :: 0 <= j < i ==> out[j].version == j + 1
    {
      if out[i].version != i + 1 {
        return Err(NotContiguous);
      }
    }
    return Ok(out);
  }

  // ---------------- What is loaded ----------------

  /** The script's file is named `digits_name.sql`, and the text is the file's own. */
  ghost predicate Named(e: Entry, m: Migration) {
    e.sql == m.sql && exists digits :: e.name == digits + "_" + m.name + ".sql" && Atoi(digits) == Some(m.version)
  }

  /** A file, not a directory, whose name ends in `.sql`. */
  ghost predicate SqlFile(e: Entry) {
    !e.isDir && exists stem :: e.name == stem + ".sql"
  }

  lemma ScriptIsSqlFile(e: Entry)
    ensures IsScript(e) <==> SqlFile(e)
  {
    if IsScript(e) {
      assert e.name == e.name[..|e.name| - 4] + ".sql";
    }
  }

  lemma ScriptsAreSqlFiles(entries: seq<Entry>)
    ensures forall k :: 0 <= k < |entries| ==> (IsScript(entries[k]) <==> SqlFile(entries[k]))
  {
    forall k | 0 <= k < |entries| ensures IsScript(entries[k]) <==> SqlFile(entries[k]) {
      ScriptIsSqlFile(entries[k]);
    }
  }

  ghost predicate Source(entries: seq<Entry>, k: int, m: Migration) {
    0 <= k < |entries| && SqlFile(entries[k]) && Named(entries[k], m)
  }

  ghost predicate NoneLost(entries: seq<Entry>, ms: Scripts) {
    forall k :: 0 <= k < |entries| && SqlFile(entries[k]) ==> exists m :: m in ms && Named(entries[k], m)
  }

  ghost predicate NoneMadeUp(entries: seq<Entry>, ms: Scripts) {
    forall m :: m in ms ==> exists k :: Source(entries, k, m)
  }

  ghost predicate NoneTwice(entries: seq<Entry>, ms: Scripts) {
    forall m, j, k :: m in ms && Source(entries, j, m) && Source(entries, k, m) ==> j == k
  }

  ghost predicate Distinct(ms: Scripts) {
    forall i, j :: 0 <= i < j < |ms| ==> ms[i] != ms[j]
  }

  /** Every script of the directory is in the list once, and every script of the list comes from exactly one. */
  ghost predicate Listed(entries: seq<Entry>, ms: Scripts) {
    NoneLost(entries, ms) && NoneMadeUp(entries, ms) && NoneTwice(entries, ms) && Distinct(ms)
  }

  lemma NamedIffParsed(e: Entry, m: Migration)
    requires IsScript(e)
    ensures Named(e, m) <==> Parse(e) == Ok(m)
  {
    if Named(e, m) {
      var digits :| e.name == digits + "_" + m.name + ".sql" && Atoi(digits) == Some(m.version);
      NameRead(e, digits, m.name);
    }
    if Parse(e) == Ok(m) {
      NameSplit(e, m);
    }
  }

  lemma NameRead(e: Entry, digits: string, name: string)
    requires e.name == digits + "_" + name + ".sql" && Atoi(digits).Some? && IsScript(e)
    ensures Parse(e) == Ok(Migration(Atoi(digits).value, name, e.sql))
  {
    var base := e.name[..|e.name| - 4];
    assert base == digits + ['_'] + name;
    NoUnderscore(digits);
    IndexAt(digits, '_', name);
  }

  lemma NameSplit(e: Entry, m: Migration)
    requires IsScript(e) && Parse(e) == Ok(m)
    ensures Named(e, m)
  {
    var base := e.name[..|e.name| - 4];
    var i := Index(base, '_');
    assert base == base[..i] + "_" + base[i + 1..];
    assert e.name == base + ".sql";
    assert e.name == base[..i] + "_" + m.name + ".sql";
  }

  lemma NoUnderscore(digits: string)
    requires Atoi(digits).Some?
    ensures '_' !in digits
  {
    forall i | 0 <= i < |digits| ensures digits[i] != '_' {
      assert i > 0 ==> digits[1..][i - 1] == digits[i];
    }
  }

  /** Where the scripts of the directory are. */
  function Picked(entries: seq<Entry>): (ks: seq<nat>)
    ensures forall i, j :: 0 <= i < j < |ks| ==> ks[i] < ks[j]
    ensures forall i :: 0 <= i < |ks| ==> ks[i] < |entries| && IsScript(entries[ks[i]])
    ensures forall k :: 0 <= k < |entries| && IsScript(entries[k]) ==> k in ks
  {
    if entries == [] then []
    else
      var n := |entries| - 1;
      Picked(entries[..n]) + (if IsScript(entries[n]) then [n] else [])
  }

  lemma {:induction false} ParsedOneByOne(entries: seq<Entry>)
    requires ParseAll(entries).Ok?
    ensures var ms, ks := ParseAll(entries).value, Picked(entries);
      |ms| == |ks| && forall i :: 0 <= i < |ms| ==> Parse(entries[ks[i]]) == Ok(ms[i])
  {
    if entries != [] {
      ParsedOneByOne(entries[..|entries| - 1]);
    }
  }

  /** The i-th script of the list is the file at the i-th place, and no file is left out or taken twice. */
  ghost predicate Matched(entries: seq<Entry>, ms: Scripts, ks: seq<nat>) {
    && |ms| == |ks|
    && (forall i :: 0 <= i < |ks| ==> Source(entries, ks[i], ms[i]))
    && (forall k :: 0 <= k < |entries| && SqlFile(entries[k]) ==> k in ks)
    && (forall i, j :: 0 <= i < j < |ks| ==> ks[i] != ks[j])
  }

  lemma ParsedMatched(entries: seq<Entry>)
    requires ParseAll(entries).Ok?
    ensures Matched(entries, ParseAll(entries).value, Picked(entries))
  {
    ParsedOneByOne(entries);
    ScriptsAreSqlFiles(entries);
    var ms, ks := ParseAll(entries).value, Picked(entries);
    forall i | 0 <= i < |ks| ensures Source(entries, ks[i], ms[i]) {
      NamedIffParsed(entries[ks[i]], ms[i]);
    }
  }

  lemma OneReading(e: Entry, m: Migration, m': Migration)
    requires SqlFile(e) && Named(e, m) && Named(e, m')
    ensures m == m'
  {
    ScriptIsSqlFile(e);
    NamedIffParsed(e, m);
    NamedIffParsed(e, m');
  }

  lemma PlaceOf(entries: seq<Entry>, ms: Scripts, ks: seq<nat>, m: Migration, k: int) returns (i: nat)
    requires Matched(entries, ms, ks) && Source(entries, k, m)
    ensures i < |ms| && ks[i] == k && ms[i] == m
  {
    i :| 0 <= i < |ks| && ks[i] == k;
    OneReading(entries[k], ms[i], m);
  }

  lemma MatchedLosesNone(entries: seq<Entry>, ms: Scripts, ks: seq<nat>)
    requires Matched(entries, ms, ks)
    ensures NoneLost(entries, ms) && NoneMadeUp(entries, ms)
  {
    forall k | 0 <= k < |entries| && SqlFile(entries[k]) ensures exists m :: m in ms && Named(entries[k], m) {
      var i :| 0 <= i < |ks| && ks[i] == k;
      assert Source(entries, ks[i], ms[i]) && ms[i] in ms;
    }
    forall m | m in ms ensures exists k :: Source(entries, k, m) {
      var i :| 0 <= i < |ms| && ms[i] == m;
      assert Source(entries, ks[i], m);
    }
  }

  lemma MatchedOnce(entries: seq<Entry>, ms: Scripts, ks: seq<nat>)
    requires Matched(entries, ms, ks) && Distinct(ms)
    ensures NoneTwice(entries, ms)
  {
    forall m, j, k | m in ms && Source(entries, j, m) && Source(entries, k, m) ensures j == k {
      var a := PlaceOf(entries, ms, ks, m, j);
      var b := PlaceOf(entries, ms, ks, m, k);
    }
  }

  /** Two lists of one directory have the same scripts. */
  lemma ListedIsMatched(entries: seq<Entry>, ms: Scripts, ks: seq<nat>, out: Scripts)
    requires Matched(entries, ms, ks) && Listed(entries, out)
    ensures multiset(ms) == multiset(out)
  {
    forall m ensures m in ms <==> m in out {
      if m in ms {
        var i :| 0 <= i < |ms| && ms[i] == m;
        MatchedIsIn(entries, ms, ks, out, i);
      }
      if m in out {
        var k :| Source(entries, k, m);
        var i := PlaceOf(entries, ms, ks, m, k);
      }
    }
    forall i, j | 0 <= i < j < |ms| ensures ms[i] != ms[j] {
      MatchedIsIn(entries, ms, ks, out, i);
      assert Source(entries, ks[i], ms[i]) && Source(entries, ks[j], ms[j]);
    }
    EnumerationsSameBag(ms, out, set m | m in out);
  }

  lemma MatchedIsIn(entries: seq<Entry>, ms: Scripts, ks: seq<nat>, out: Scripts, i: nat)
    requires Matched(entries, ms, ks) && NoneLost(entries, out) && i < |ms|
    ensures ms[i] in out
  {
    assert Source(entries, ks[i], ms[i]);
    var m :| m in out && Named(entries[ks[i]], m);
    OneReading(entries[ks[i]], ms[i], m);
  }

  lemma {:induction false} WellNamed(entries: seq<Entry>)
    ensures ParseAll(entries).Ok? <==> forall e :: e in entries && IsScript(e) ==> Parse(e).Ok?
  {
    if entries != [] {
      var n := |entries| - 1;
      WellNamed(entries[..n]);
      assert entries == entries[..n] + [entries[n]];
    }
  }

  lemma AllParse(entries: seq<Entry>, out: Scripts)
    requires NoneLost(entries, out)
    ensures ParseAll(entries).Ok?
  {
    ScriptsAreSqlFiles(entries);
    forall e | e in entries && IsScript(e) ensures Parse(e).Ok? {
      var k :| 0 <= k < |entries| && entries[k] == e;
      var m :| m in out && Named(entries[k], m);
      NamedIffParsed(e, m);
    }
    WellNamed(entries);
  }

  lemma ListedByBag(entries: seq<Entry>, ms: Scripts, out: Scripts)
    requires Listed(entries, ms) && multiset(ms) == multiset(out)
    ensures Listed(entries, out)
  {
    SameMembers(ms, out);
    DistinctByBag(out, ms);
  }

  lemma ContiguousApart(ms: Scripts)
    requires Contiguous(ms)
    ensures Ordered(ms, ByVersion) && Distinct(ms)
    ensures TellsApart(ms, ByVersion)
  {
  }

  lemma DistinctByBag(ms: Scripts, out: Scripts)
    requires multiset(ms) == multiset(out) && Distinct(out)
    ensures Distinct(ms)
  {
    OnceEach(out);
    OnceEachMeansDistinct(ms);
  }

  /** Loading succeeds with a list exactly when its versions run 1, 2, ..., n and it has every script of the
  directory once, each with the number and name of its file and the file's own text. */
  lemma LoadIff(entries: seq<Entry>, out: Scripts)
    ensures Load(entries) == Ok(out) <==> Contiguous(out) && Listed(entries, out)
  {
    if Load(entries) == Ok(out) {
      var ms := ParseAll(entries).value;
      SortPermutes(ms, ByVersion);
      ContiguousApart(out);
      DistinctByBag(ms, out);
      ParsedMatched(entries);
      MatchedLosesNone(entries, ms, Picked(entries));
      MatchedOnce(entries, ms, Picked(entries));
      ListedByBag(entries, ms, out);
    }
    if Contiguous(out) && Listed(entries, out) {
      ContiguousApart(out);
      AllParse(entries, out);
      ParsedMatched(entries);
      ListedIsMatched(entries, ParseAll(entries).value, Picked(entries), out);
      SameBagSorted(ParseAll(entries).value, out);
    }
  }

  ghost predicate Loadable(entries: seq<Entry>) {
    exists out :: Contiguous(out) && Listed(entries, out)
  }

  lemma LoadedExactly(entries: seq<Entry>)
    ensures Load(entries).Ok? <==> Loadable(entries)
    ensures Load(entries).Ok? ==> Contiguous(Load(entries).value) && Listed(entries, Load(entries).value)
  {
    if Load(entries).Ok? {
      LoadIff(entries, Load(entries).value);
    }
    if Loadable(entries) {
      var out :| Contiguous(out) && Listed(entries, out);
      LoadIff(entries, out);
    }
  }

  /** A name of the documented form gives the number and the rest. */
  lemma NameParses(digits: string, name: string, sql: string)
    requires digits != "" && AllDigits(digits) && Value(digits) <= MAX_INT64
    ensures var e := Entry(digits + "_" + name + ".sql", false, sql);
      IsScript(e) && Parse(e) == Ok(Migration(Value(digits), name, sql))
  {
    var e := Entry(digits + "_" + name + ".sql", false, sql);
    assert e.name[..|e.name| - 4] == digits + ['_'] + name;
    assert digits[0] != '+' && digits[0] != '-' && '_' !in digits;
    IndexAt(digits, '_', name);
  }

  function Versions(ms: Scripts): seq<int> {
    if ms == [] then [] else [ms[0].version] + Versions(ms[1..])
  }

  function UpTo(n: nat): (s: seq<int>)
    ensures |s| == n && forall i :: 0 <= i < n ==> s[i] == i + 1
  {
    seq(n, i => i + 1)
  }

  lemma {:induction false} VersionsAt(ms: Scripts)
    ensures |Versions(ms)| == |ms| && forall i :: 0 <= i < |ms| ==> Versions(ms)[i] == ms[i].version
  {
    if ms != [] {
      VersionsAt(ms[1..]);
    }
  }

  lemma VersionsCons(m: Migration, ms: Scripts)
    ensures Versions([m] + ms) == [m.version] + Versions(ms)
  {
    assert ([m] + ms)[1..] == ms;
  }

  lemma {:induction false} InsertVersions(m: Migration, ms: Scripts)
    ensures multiset(Versions(Insert(m, ms, ByVersion))) == multiset{m.version} + multiset(Versions(ms))
  {
    if ms == [] || ByVersion(m, ms[0]) {
      VersionsCons(m, ms);
      assert ms == [] ==> [m] + ms == [m];
    } else {
      InsertVersions(m, ms[1..]);
      VersionsCons(ms[0], Insert(m, ms[1..], ByVersion));
    }
  }

  lemma {:induction false} SortVersions(ms: Scripts)
    ensures multiset(Versions(Sort(ms, ByVersion))) == multiset(Versions(ms))
  {
    if ms != [] {
      SortVersions(ms[1..]);
      InsertVersions(ms[0], Sort(ms[1..], ByVersion));
    }
  }

  predicate AtMost(a: int, b: int) {
    a <= b
  }

  lemma SortKeepsLength(ms: Scripts)
    ensures |Sort(ms, ByVersion)| == |ms|
  {
    SortPermutes(ms, ByVersion);
    assert |Sort(ms, ByVersion)| == |multiset(Sort(ms, ByVersion))| == |multiset(ms)| == |ms|;
  }

  lemma ContiguousVersions(ms: Scripts)
    ensures Contiguous(ms) <==> Versions(ms) == UpTo(|ms|)
  {
    VersionsAt(ms);
    if Versions(ms) == UpTo(|ms|) {
      forall i | 0 <= i < |ms| ensures ms[i].version == i + 1 {
        assert Versions(ms)[i] == UpTo(|ms|)[i];
      }
    }
  }

  lemma OrderedVersions(ms: Scripts)
    requires Ordered(ms, ByVersion)
    ensures Ordered(Versions(ms), AtMost)
  {
    VersionsAt(ms);
  }

  /** Sorted versions run 1, 2, ..., n exactly when the versions are a permutation of 1..n. */
  lemma ContiguousIffPermutation(ms: Scripts)
    ensures Contiguous(Sort(ms, ByVersion)) <==> multiset(Versions(ms)) == multiset(UpTo(|ms|))
  {
    var sorted := Sort(ms, ByVersion);
    SortVersions(ms);
    SortKeepsLength(ms);
    ContiguousVersions(sorted);
    if multiset(Versions(ms)) == multiset(UpTo(|ms|)) {
      SortOrders(ms, ByVersion);
      OrderedVersions(sorted);
      OrderedUnique(Versions(sorted), UpTo(|ms|), AtMost);
    }
  }

  /** However the scripts of a directory are listed, they are accepted exactly when their versions are a
  permutation of 1..n; what is loaded is then the same scripts in the order of their versions. */
  lemma AcceptedIff(entries: seq<Entry>, ms: Scripts)
    requires Listed(entries, ms)
    ensures Load(entries).Ok? <==> multiset(Versions(ms)) == multiset(UpTo(|ms|))
    ensures Load(entries).Ok? ==> Contiguous(Load(entries).value) && multiset(Load(entries).value) == multiset(ms)
  {
    var sorted := Sort(ms, ByVersion);
    SortPermutes(ms, ByVersion);
    ListedByBag(entries, ms, sorted);
    ContiguousIffPermutation(ms);
    LoadIff(entries, sorted);
    if Load(entries).Ok? {
      LoadIff(entries, Load(entries).value);
      TwoLists(entries, ms, Load(entries).value);
      SameBagSorted(ms, Load(entries).value);
    }
  }

  lemma TwoLists(entries: seq<Entry>, ms: Scripts, out: Scripts)
    requires Listed(entries, ms) && Listed(entries, out)
    ensures multiset(ms) == multiset(out)
  {
    AllParse(entries, ms);
    ParsedMatched(entries);
    ListedIsMatched(entries, ParseAll(entries).value, Picked(entries), ms);
    ListedIsMatched(entries, ParseAll(entries).value, Picked(entries), out);
  }

  lemma SameBagSorted(ms: Scripts, out: Scripts)
    requires multiset(ms) == multiset(out) && Contiguous(out)
    ensures Sort(ms, ByVersion) == out
  {
    SortPermutes(ms, ByVersion);
    SortOrders(ms, ByVersion);
    ContiguousApart(out);
    OrderedUnique(out, Sort(ms, ByVersion), ByVersion);
  }

  // ---------------- Applying ----------------

  /** The database: the scripts its schema went through, in order, and the rows of schema_migrations. */
  datatype State = State(applied: seq<string>, recorded: map<int, string>)

  const FRESH := State([], map[])

  /** Where a transaction can fail. */
  datatype Stage = AtBegin | AtScript | AtRecord | AtCommit

  /** One start of the server: the files it carries and what goes wrong in it. */
  datatype Start = Start(entries: seq<Entry>, createFails: bool, readFails: bool, faults: map<int, Stage>)

  datatype Reply = Reply(state: State, ok: bool)

  ghost predicate IsCurrent(recorded: set<int>, c: int) {
    if recorded == {} then c == 0 else c in recorded && forall v :: v in recorded ==> v <= c
  }

  ghost function Any<T>(s: set<T>): (x: T)
    requires s != {}
    ensures x in s
  {
    var x :| x in s; x
  }

  /** `COALESCE(MAX(version), 0)`. */
  ghost function Current(recorded: set<int>): (c: int)
    ensures IsCurrent(recorded, c)
  {
    if recorded == {} then 0
    else
      var v := Any(recorded);
      var rest := Current(recorded - {v});
      assert recorded == (recorded - {v}) + {v};
      if recorded == {v} || v > rest then v else rest
  }

  /** Script and row go in together or not at all. */
  ghost function ApplyAll(s: State, ms: Scripts, current: int, faults: map<int, Stage>): Reply
    decreases ms
  {
    if ms == [] then Reply(s, true)
    else
      var m := ms[0];
      if m.version <= current then ApplyAll(s, ms[1..], current, faults)
      else if m.version in faults || m.version in s.recorded then Reply(s, false)
      else ApplyAll(State(s.applied + [m.sql], s.recorded[m.version := m.name]), ms[1..], current, faults)
  }

  ghost function Next(s: State, start: Start): Reply {
    if start.createFails then Reply(s, false)
    else
      match Load(start.entries)
      case Err(_) => Reply(s, false)
      case Ok(ms) =>
        if start.readFails then Reply(s, false) else ApplyAll(s, ms, Current(s.recorded.Keys), start.faults)
  }

  class Database {
    var applied: seq<string>
    var recorded: map<int, string>

    constructor ()
      ensures View() == FRESH
    {
      applied, recorded := [], map[];
    }

    function View(): State
      reads this
    {
      State(applied, recorded)
    }

    method MaxVersion() returns (current: int)
      ensures current == Current(recorded.Keys)
    {
      var rows := Scan(recorded.Keys);
      current := 0;
      for n := 0 to |rows|
        invariant if n == 0 then current == 0 else current in rows[..n] && forall i :: 0 <= i < n ==> rows[i] <= current
      {
        if n == 0 || rows[n] > current {
          current := rows[n];
        }
      }
      ghost var keys := recorded.Keys;
      assert rows != [] ==> rows[0] in keys && current in rows;
      assert forall v :: v in keys ==> v in rows;
      assert IsCurrent(keys, current) && IsCurrent(keys, Current(keys));
    }

    method Migrate(start: Start) returns (ok: bool)
      modifies this
      ensures Reply(View(), ok) == Next(old(View()), start)
    {
      if start.createFails {
        return false;
      }
      var loaded := LoadMigrations(start.entries);
      if loaded.Err? || start.readFails {
        return false;
      }
      var ms := loaded.value;
      var current := MaxVersion();
      for n := 0 to |ms|
        invariant ApplyAll(View(), ms[n..], current, start.faults) == ApplyAll(old(View()), ms, current, start.faults)
      {
        var m := ms[n];
        ghost var before := View();
        assert ms[n..][0] == m && ms[n..][1..] == ms[n + 1..];
        if m.version <= current {
          assert ApplyAll(before, ms[n..], current, start.faults)
              == ApplyAll(before, ms[n + 1..], current, start.faults);
          continue;
        }
        var fault := if m.version in start.faults then Some(start.faults[m.version]) else None;
        if fault == Some(AtBegin) {
          return false;
        }
        var tx := State(applied + [m.sql], recorded);
        if fault == Some(AtScript) {
          return false;
        }
        if m.version in tx.recorded || fault == Some(AtRecord) {
          return false;
        }
        tx := tx.(recorded := tx.recorded[m.version := m.name]);
        if fault == Some(AtCommit) {
          return false;
        }
        assert fault.None? by {
          if fault.Some? {
            match fault.value
            case AtBegin =>
            case AtScript =>
            case AtRecord =>
            case AtCommit =>
          }
        }
        applied, recorded := tx.applied, tx.recorded;
        assert View() == State(before.applied + [m.sql], before.recorded[m.version := m.name]);
        assert ApplyAll(before, ms[n..], current, start.faults) == ApplyAll(View(), ms[n + 1..], current, start.faults);
      }
      return true;
    }
  }

  // ---------------- Any sequence of starts ----------------

  ghost function Run(starts: seq<Start>): Reply {
    if starts == [] then Reply(FRESH, true) else Next(Run(starts[..|starts| - 1]).state, starts[|starts| - 1])
  }

  function Sqls(ms: Scripts): seq<string> {
    seq(|ms|, i requires 0 <= i < |ms| => ms[i].sql)
  }

  function Rows(ms: Scripts): map<int, string> {
    if ms == [] then map[] else Rows(ms[..|ms| - 1])[|ms| := ms[|ms| - 1].name]
  }

  /** The first k scripts of the list, once each and in order, and exactly their rows. */
  ghost predicate Resumed(s: State, all: Scripts) {
    |s.applied| <= |all| && s.applied == Sqls(all[..|s.applied|]) && s.recorded == Rows(all[..|s.applied|])
  }

  /** The start carries an initial part of this list, or files that are refused. */
  ghost predicate Carries(start: Start, all: Scripts) {
    Load(start.entries).Ok? ==> Load(start.entries).value <= all
  }

  lemma {:induction false} RowsUpTo(ms: Scripts)
    ensures forall v :: v in Rows(ms) <==> 1 <= v <= |ms|
  {
    if ms != [] {
      RowsUpTo(ms[..|ms| - 1]);
    }
  }

  lemma CurrentOfRows(ms: Scripts)
    ensures Current(Rows(ms).Keys) == |ms|
  {
    var keys := Rows(ms).Keys;
    RowsUpTo(ms);
    assert IsCurrent(keys, Current(keys));
    if ms != [] {
      assert |ms| in keys;
    }
  }

  lemma OneMore(s: State, all: Scripts)
    requires Resumed(s, all) && Contiguous(all) && |s.applied| < |all|
    ensures var m := all[|s.applied|];
      m.version !in s.recorded && Resumed(State(s.applied + [m.sql], s.recorded[m.version := m.name]), all)
  {
    var k := |s.applied|;
    assert Sqls(all[..k + 1]) == Sqls(all[..k]) + [all[k].sql];
    assert all[..k + 1][..k] == all[..k];
    RowsUpTo(all[..k]);
  }

  function Max(a: int, b: int): int {
    if a > b then a else b
  }

  lemma {:induction false} ApplyAllResumes(s: State, all: Scripts, ms: Scripts, n: nat, current: nat,
                                           faults: map<int, Stage>)
    requires Contiguous(all) && ms <= all && n <= |ms| && current <= |all|
    requires Resumed(s, all) && |s.applied| == Max(current, n)
    ensures var r := ApplyAll(s, ms[n..], current, faults);
      && Resumed(r.state, all) && |s.applied| <= |r.state.applied|
      && (if r.ok then |r.state.applied| == Max(current, |ms|) else |r.state.applied| < |ms|)
    decreases |ms| - n
  {
    if n < |ms| {
      var m := ms[n];
      assert ms[n..][0] == m && ms[n..][1..] == ms[n + 1..] && m == all[n];
      if m.version <= current {
        ApplyAllResumes(s, all, ms, n + 1, current, faults);
      } else {
        OneMore(s, all);
        if m.version !in faults {
          ApplyAllResumes(State(s.applied + [m.sql], s.recorded[m.version := m.name]), all, ms, n + 1, current, faults);
        }
      }
    }
  }

  lemma NextResumes(s: State, start: Start, all: Scripts)
    requires Contiguous(all) && Carries(start, all) && Resumed(s, all)
    ensures var r := Next(s, start);
      && Resumed(r.state, all) && |s.applied| <= |r.state.applied|
      && (r.ok ==> Load(start.entries).Ok? && |r.state.applied| == Max(|s.applied|, |Load(start.entries).value|))
  {
    CurrentOfRows(all[..|s.applied|]);
    if Load(start.entries).Ok? {
      var ms := Load(start.entries).value;
      assert ms[0..] == ms;
      ApplyAllResumes(s, all, ms, 0, |s.applied|, start.faults);
    }
  }

  /** Wherever each start fails, the rows are exactly 1..k and the schema has gone through the first k
  scripts, once each, in order. */
  lemma {:induction false} RunResumes(starts: seq<Start>, all: Scripts)
    requires Contiguous(all) && forall i :: 0 <= i < |starts| ==> Carries(starts[i], all)
    ensures Resumed(Run(starts).state, all)
  {
    if starts != [] {
      RunResumes(starts[..|starts| - 1], all);
      NextResumes(Run(starts[..|starts| - 1]).state, starts[|starts| - 1], all);
    }
  }

  /** When scripts were only ever appended, a start that succeeds has brought the schema to its last
  script, and starting again changes nothing, whatever might have failed. */
  lemma SuccessIsComplete(starts: seq<Start>, again: Start)
    requires starts != [] && Run(starts).ok
    requires var entries := starts[|starts| - 1].entries;
      Load(entries).Ok? && again.entries == entries && !again.createFails && !again.readFails
      && forall i :: 0 <= i < |starts| ==> Carries(starts[i], Load(entries).value)
    ensures var ms := Load(again.entries).value;
      && Run(starts).state == State(Sqls(ms), Rows(ms))
      && Next(Run(starts).state, again) == Reply(Run(starts).state, true)
  {
    var ms := Load(again.entries).value;
    var before := starts[..|starts| - 1];
    LoadIff(again.entries, ms);
    RunResumes(before, ms);
    NextResumes(Run(before).state, starts[|starts| - 1], ms);
    assert ms[..|ms|] == ms;
    NothingLeft(Run(starts).state, ms, 0, again.faults);
    CurrentOfRows(ms);
    assert ms[0..] == ms;
  }

  lemma {:induction false} NothingLeft(s: State, ms: Scripts, n: nat, faults: map<int, Stage>)
    requires Contiguous(ms) && n <= |ms|
    ensures ApplyAll(s, ms[n..], |ms|, faults) == Reply(s, true)
    decreases |ms| - n
  {
    if n < |ms| {
      assert ms[n..][0] == ms[n] && ms[n..][1..] == ms[n + 1..];
      NothingLeft(s, ms, n + 1, faults);
    }
  }
}
