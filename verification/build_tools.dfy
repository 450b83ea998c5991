/**
 * The build tool's small helpers: counting dependency occurrences in a
 * dictionary, picking the dependencies that several bundles share, and
 * composing build names and output paths.
 *
 * The asset database, the environment and the clock are outside the model:
 * the dependency query is a function parameter, and the environment values
 * and the current date are arguments.
 */
module BuildTools {
  import opened Wrappers

  // ---------------------------------------------------------------------
  // Occurrence counting
  // ---------------------------------------------------------------------

  /** A string-keyed dictionary of counts, updated in place. */
  class Counts {
    var entries: map<string, int>

    /** An empty dictionary. */
    constructor ()
      ensures entries == map[]
    {
      entries := map[];
    }
  }

  /** The dictionary after counting `keys` one by one: a seen key is incremented, a new key starts at 1. */
  function Tally(m: map<string, int>, keys: seq<string>): (r: map<string, int>)
    ensures m.Keys <= r.Keys
    decreases |keys|
  {
    if keys == [] then m
    else CountKey(Tally(m, keys[..|keys| - 1]), keys[|keys| - 1])
  }

  /** One occurrence of `key`: a seen key is incremented, a new key starts at 1. */
  function CountKey(m: map<string, int>, key: string): map<string, int>
  {
    m[key := if key in m then m[key] + 1 else 1]
  }

  /**
   * Counting adds exactly the occurrences: the keys are the old keys plus
   * the counted ones, each count grows by the number of occurrences of its
   * key, and keys that do not occur keep their old count.
   */
  lemma {:induction false} TallyCounts(m: map<string, int>, keys: seq<string>)
    ensures Tally(m, keys).Keys == m.Keys + set k | k in keys
    ensures forall k :: k in Tally(m, keys) ==>
              Tally(m, keys)[k] == (if k in m then m[k] else 0) + multiset(keys)[k]
    decreases |keys|
  {
    if keys != [] {
      var n := |keys| - 1;
      TallyCounts(m, keys[..n]);
      assert keys == keys[..n] + [keys[n]];
      assert multiset(keys) == multiset(keys[..n]) + multiset{keys[n]};
    }
  }

  /** Counting two lists in turn is counting their concatenation. */
  lemma {:induction false} TallyAppend(m: map<string, int>, a: seq<string>, b: seq<string>)
    ensures Tally(Tally(m, a), b) == Tally(m, a + b)
    decreases |b|
  {
    if b == [] {
      assert a + b == a;
    } else {
      var n := |b| - 1;
      var ab := a + b;
      assert ab[..|ab| - 1] == a + b[..n];
      assert ab[|ab| - 1] == b[n];
      TallyAppend(m, a, b[..n]);
      assert Tally(m, ab) == CountKey(Tally(m, a + b[..n]), b[n]);
    }
  }

  /** Counts every key of `keys` into `dictionary`, one occurrence at a time. */
  method AddKeys(dictionary: Counts, keys: seq<string>)
    modifies dictionary
    ensures dictionary.entries == Tally(old(dictionary.entries), keys)
    ensures dictionary.entries.Keys == old(dictionary.entries).Keys + set k | k in keys
    ensures forall k :: k in dictionary.entries ==>
              dictionary.entries[k] ==
                (if k in old(dictionary.entries) then old(dictionary.entries)[k] else 0) + multiset(keys)[k]
  {
    for i := 0 to |keys|
      invariant dictionary.entries == Tally(old(dictionary.entries), keys[..i])
    {
      assert keys[..i + 1][..i] == keys[..i];
      var key := keys[i];
      if key in dictionary.entries {
        dictionary.entries := dictionary.entries[key := dictionary.entries[key] + 1];
      } else {
        dictionary.entries := dictionary.entries[key := 1];
      }
    }
    assert keys[..|keys|] == keys;
    TallyCounts(old(dictionary.entries), keys);
  }

  // ---------------------------------------------------------------------
  // Bundle builds and their shared dependencies
  // ---------------------------------------------------------------------

  /** One asset bundle to build: its name, its variant and the assets it holds. */
  datatype AssetBundleBuild = AssetBundleBuild(assetBundleName: string, assetBundleVariant: string, assetNames: seq<string>)

  /** A bundle named `name` holding `assets` in order, with no variant. */
  function MakeAssetBundleBuild(assets: seq<string>, name: string): (build: AssetBundleBuild)
    ensures build.assetBundleName == name && build.assetBundleVariant == ""
    ensures build.assetNames == assets
  {
    AssetBundleBuild(name, "", assets)
  }

  /** The dependency lists of `assets`, concatenated in order. */
  function AssetDependencies(assets: seq<string>, dependencies: string -> seq<string>): seq<string>
    decreases |assets|
  {
    if assets == [] then []
    else AssetDependencies(assets[..|assets| - 1], dependencies) + dependencies(assets[|assets| - 1])
  }

  /** The dependency lists of every asset of every build, concatenated in order. */
  function BuildDependencies(builds: seq<AssetBundleBuild>, dependencies: string -> seq<string>): seq<string>
    decreases |builds|
  {
    if builds == [] then []
    else BuildDependencies(builds[..|builds| - 1], dependencies)
           + AssetDependencies(builds[|builds| - 1].assetNames, dependencies)
  }

  /** The dependencies of one more asset come after those of the assets before it. */
  lemma AssetDependenciesStep(assets: seq<string>, a: int, dependencies: string -> seq<string>)
    requires 0 <= a < |assets|
    ensures AssetDependencies(assets[..a + 1], dependencies)
              == AssetDependencies(assets[..a], dependencies) + dependencies(assets[a])
  {
    assert assets[..a + 1][..a] == assets[..a];
  }

  /** The dependencies of one more build come after those of the builds before it. */
  lemma BuildDependenciesStep(builds: seq<AssetBundleBuild>, b: int, dependencies: string -> seq<string>)
    requires 0 <= b < |builds|
    ensures BuildDependencies(builds[..b + 1], dependencies)
              == BuildDependencies(builds[..b], dependencies) + AssetDependencies(builds[b].assetNames, dependencies)
  {
    assert builds[..b + 1][..b] == builds[..b];
  }

  lemma ConcatAssociative(a: seq<string>, b: seq<string>, c: seq<string>)
    ensures a + b + c == a + (b + c)
  {
  }

  /** An asset bundle made by `MakeAssetBundleBuild` contributes exactly its assets' dependencies. */
  lemma MadeBuildDependencies(assets: seq<string>, name: string, dependencies: string -> seq<string>)
    ensures BuildDependencies([MakeAssetBundleBuild(assets, name)], dependencies) == AssetDependencies(assets, dependencies)
  {
    assert [MakeAssetBundleBuild(assets, name)][..0] == [];
  }

  /** Ordinal suffix test for the scene file extension. */
  predicate IsScene(path: string)
  {
    |path| >= |".unity"| && path[|path| - |".unity"|..] == ".unity"
  }

  /** A path is a scene exactly when it is some stem followed by ".unity". */
  lemma SceneSuffix(path: string)
    ensures IsScene(path) <==> exists stem: string :: path == stem + ".unity"
  {
    if IsScene(path) {
      var stem := path[..|path| - |".unity"|];
      assert path == stem + ".unity";
    }
    if exists stem: string :: path == stem + ".unity" {
      var stem: string :| path == stem + ".unity";
      assert path[|stem|..] == ".unity";
    }
  }

  /**
   * The dependencies of the given builds that are not scenes and that occur
   * more than once over all dependency lists, each listed once. `dependencies`
   * stands for the asset database's recursive dependency query.
   */
  method FindSharedDependencies(builds: seq<AssetBundleBuild>, dependencies: string -> seq<string>)
    returns (shared: seq<string>)
    ensures forall p :: p in shared <==> multiset(BuildDependencies(builds, dependencies))[p] > 1 && !IsScene(p)
    ensures forall i, j :: 0 <= i < j < |shared| ==> shared[i] != shared[j]
  {
    var dependenciesCount := CountDependencies(builds, dependencies);
    TallyCounts(map[], BuildDependencies(builds, dependencies));
    shared := SelectShared(dependenciesCount);
  }

  /** The counting loops: every dependency list of every asset of every build is added to one dictionary. */
  method CountDependencies(builds: seq<AssetBundleBuild>, dependencies: string -> seq<string>)
    returns (counts: map<string, int>)
    ensures counts == Tally(map[], BuildDependencies(builds, dependencies))
  {
    var dependenciesCount := new Counts();
    ghost var counted: seq<string> := [];
    for b := 0 to |builds|
      invariant counted == BuildDependencies(builds[..b], dependencies)
      invariant dependenciesCount.entries == Tally(map[], counted)
    {
      var build := builds[b];
      ghost var before := counted;
      for a := 0 to |build.assetNames|
        invariant counted == before + AssetDependencies(build.assetNames[..a], dependencies)
        invariant dependenciesCount.entries == Tally(map[], counted)
      {
        var assetDependencies := dependencies(build.assetNames[a]);
        AddKeys(dependenciesCount, assetDependencies);
        TallyAppend(map[], counted, assetDependencies);
        AssetDependenciesStep(build.assetNames, a, dependencies);
        ConcatAssociative(before, AssetDependencies(build.assetNames[..a], dependencies), assetDependencies);
        counted := counted + assetDependencies;
      }
      assert build.assetNames[..|build.assetNames|] == build.assetNames;
      BuildDependenciesStep(builds, b, dependencies);
    }
    assert builds[..|builds|] == builds;
    counts := dependenciesCount.entries;
  }

  /**
   * The selection loop: every non-scene key counted more than once, each
   * once. The dictionary is enumerated in an order the model leaves open.
   */
  method SelectShared(counts: map<string, int>) returns (shared: seq<string>)
    ensures forall p :: p in shared <==> p in counts && counts[p] > 1 && !IsScene(p)
    ensures forall i, j :: 0 <= i < j < |shared| ==> shared[i] != shared[j]
  {
    shared := [];
    var remaining := counts.Keys;
    while remaining != {}
      invariant remaining <= counts.Keys
      invariant forall p :: p in shared <==> p in counts && p !in remaining && counts[p] > 1 && !IsScene(p)
      invariant forall i, j :: 0 <= i < j < |shared| ==> shared[i] != shared[j]
      decreases remaining
    {
      var dependency :| dependency in remaining;
      remaining := remaining - {dependency};
      if IsScene(dependency) {
        continue;
      }
      if counts[dependency] > 1 {
        shared := shared + [dependency];
      }
    }
  }

  // ---------------------------------------------------------------------
  // Build names and paths
  // ---------------------------------------------------------------------

  /** A calendar date as the clock reports it. */
  datatype Date = Date(year: int, month: int, day: int)

  /** The ranges a clock date lies in. */
  predicate ValidDate(d: Date)
  {
    1 <= d.year <= 9999 && 1 <= d.month <= 12 && 1 <= d.day <= 31
  }

  function Pow10(w: nat): (p: nat)
    ensures p >= 1
  {
    if w == 0 then 1 else 10 * Pow10(w - 1)
  }

  predicate IsDigit(c: char)
  {
    '0' <= c <= '9'
  }

  /** `n` in decimal, zero-padded on the left to `w` digits. */
  function Digits(n: nat, w: nat): (s: string)
    ensures |s| == w
    ensures forall i :: 0 <= i < |s| ==> IsDigit(s[i])
  {
    if w == 0 then [] else Digits(n / 10, w - 1) + [(('0' as int) + n % 10) as char]
  }

  /** The value of a string of decimal digits. */
  function ParseDigits(s: string): nat
    requires forall i :: 0 <= i < |s| ==> IsDigit(s[i])
    decreases |s|
  {
    if s == [] then 0
    else
      assert IsDigit(s[|s| - 1]);
      10 * ParseDigits(s[..|s| - 1]) + ((s[|s| - 1] as int) - ('0' as int))
  }

  /** Zero-padded digits read back as the number they were made from. */
  lemma {:induction false} DigitsRoundTrip(n: nat, w: nat)
    requires n < Pow10(w)
    ensures ParseDigits(Digits(n, w)) == n
  {
    if w > 0 {
      var q, r := n / 10, n % 10;
      assert n == 10 * q + r;
      assert q < Pow10(w - 1);
      DigitsRoundTrip(q, w - 1);
      var s := Digits(n, w);
      assert s[..|s| - 1] == Digits(q, w - 1);
      assert (s[|s| - 1] as int) - ('0' as int) == r;
    }
  }

  /** The date in the "yyyyMMdd" pattern: four-digit year, two-digit month, two-digit day. */
  function FormatDate(d: Date): (s: string)
    requires ValidDate(d)
    ensures |s| == 8
    ensures forall i :: 0 <= i < |s| ==> IsDigit(s[i])
  {
    Digits(d.year, 4) + Digits(d.month, 2) + Digits(d.day, 2)
  }

  /** The formatted date holds only digits and reads back as the date it came from. */
  lemma FormatDateRoundTrip(d: Date)
    requires ValidDate(d)
    ensures forall i :: 0 <= i < 8 ==> IsDigit(FormatDate(d)[i])
    ensures var s := FormatDate(d);
            Date(ParseDigits(s[..4]), ParseDigits(s[4..6]), ParseDigits(s[6..])) == d
  {
    var s := FormatDate(d);
    assert s[..4] == Digits(d.year, 4);
    assert s[4..6] == Digits(d.month, 2);
    assert s[6..] == Digits(d.day, 2);
    DigitsRoundTrip(d.year, 4);
    DigitsRoundTrip(d.month, 2);
    DigitsRoundTrip(d.day, 2);
  }

  /**
   * The build name: the date, the build number ("Dev" when the BUILD_NUMBER
   * variable is unset) and the change set ("0" when P4_CHANGELIST is unset),
   * joined by dots.
   */
  function GetBuildName(now: Date, buildNumber: Option<string>, changeSet: Option<string>): (name: string)
    requires ValidDate(now)
    ensures |name| > 9 && name[..8] == FormatDate(now) && name[8] == '.'
    ensures buildNumber.None? && changeSet.None? ==> name[9..] == "Dev.0"
  {
    var number := if buildNumber.None? then "Dev" else buildNumber.value;
    var change := if changeSet.None? then "0" else changeSet.value;
    FormatDate(now) + "." + number + "." + change
  }

  /** The pieces of `s` between occurrences of `sep`. */
  function Split(s: string, sep: char): (parts: seq<string>)
    ensures |parts| >= 1
    decreases |s|
  {
    if s == [] then [""]
    else
      var rest := Split(s[1..], sep);
      if s[0] == sep then [""] + rest else [[s[0]] + rest[0]] + rest[1..]
  }

  /** Splitting a piece free of the separator, followed by the separator, peels off that piece. */
  lemma {:induction false} SplitFirst(a: string, sep: char, b: string)
    requires sep !in a
    ensures Split(a + [sep] + b, sep) == [a] + Split(b, sep)
    decreases |a|
  {
    if a == [] {
      assert ([] + [sep] + b)[1..] == b;
    } else {
      SplitFirst(a[1..], sep, b);
      assert (a + [sep] + b)[1..] == a[1..] + [sep] + b;
      assert [a[0]] + a[1..] == a;
    }
  }

  /** A string free of the separator splits into itself. */
  lemma {:induction false} SplitNone(a: string, sep: char)
    requires sep !in a
    ensures Split(a, sep) == [a]
    decreases |a|
  {
    if a != [] {
      SplitNone(a[1..], sep);
      assert [a[0]] + a[1..] == a;
    }
  }

  /** Three separator-free pieces joined by the separator split back into those pieces. */
  lemma SplitThree(a: string, b: string, c: string, sep: char)
    requires sep !in a && sep !in b && sep !in c
    ensures Split(a + [sep] + b + [sep] + c, sep) == [a, b, c]
  {
    assert a + [sep] + b + [sep] + c == a + [sep] + (b + [sep] + c);
    SplitFirst(a, sep, b + [sep] + c);
    SplitFirst(b, sep, c);
    SplitNone(c, sep);
  }

  /** A dot-free build number and change set can be read back from the build name, after the date. */
  lemma BuildNameParts(now: Date, buildNumber: Option<string>, changeSet: Option<string>)
    requires ValidDate(now)
    requires buildNumber.Some? ==> '.' !in buildNumber.value
    requires changeSet.Some? ==> '.' !in changeSet.value
    ensures Split(GetBuildName(now, buildNumber, changeSet), '.') ==
              [FormatDate(now),
               if buildNumber.None? then "Dev" else buildNumber.value,
               if changeSet.None? then "0" else changeSet.value]
  {
    var date := FormatDate(now);
    var number := if buildNumber.None? then "Dev" else buildNumber.value;
    var change := if changeSet.None? then "0" else changeSet.value;
    FormatDateRoundTrip(now);
    assert '.' !in date by {
      forall i | 0 <= i < |date|
        ensures date[i] != '.'
      {
        assert IsDigit(date[i]);
      }
    }
    assert GetBuildName(now, buildNumber, changeSet) == date + ['.'] + number + ['.'] + change;
    SplitThree(date, number, change, '.');
  }

  /** The platforms the build menus target. */
  datatype BuildTarget = StandaloneWindows64 | StandaloneLinux64 | PS4

  /** The target's enumeration name. */
  function TargetName(target: BuildTarget): (name: string)
    ensures name != [] && '/' !in name
  {
    match target
    case StandaloneWindows64 => "StandaloneWindows64"
    case StandaloneLinux64 => "StandaloneLinux64"
    case PS4 => "PS4"
  }

  /** Where a build goes: under "Builds/<target>/", named after the product, the target and the build. */
  function GetBuildPath(target: BuildTarget, productName: string, buildName: string): (path: string)
    ensures |path| > 7 + |buildName| && path[..7] == "Builds/"
    ensures path[|path| - |buildName|..] == buildName
  {
    "Builds/" + TargetName(target) + "/" + productName + "_" + TargetName(target) + "_" + buildName
  }

  /** A build path is two folders deep, in the "Builds" folder and the target's folder. */
  lemma BuildPathParts(target: BuildTarget, productName: string, buildName: string)
    requires '/' !in productName && '/' !in buildName
    ensures Split(GetBuildPath(target, productName, buildName), '/') ==
              ["Builds", TargetName(target), productName + "_" + TargetName(target) + "_" + buildName]
  {
    var name := TargetName(target);
    var file := productName + "_" + name + "_" + buildName;
    assert "Builds/" == "Builds" + ['/'];
    assert GetBuildPath(target, productName, buildName) == "Builds" + ['/'] + name + ['/'] + file;
    assert '/' !in "_";
    SplitThree("Builds", name, file, '/');
  }
}
