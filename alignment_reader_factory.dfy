/**
 * Choosing an alignment reader for a resource: a first-match dispatch on the
 * locator's path and type strings, the parsing of `.bam.list` files with their
 * `#replace key=value` directives, the merging of several readers into one,
 * and the extraction of the upper-cased platform names from a file header.
 */
module ReaderFactory {
  import opened JavaLang
  import opened Wrappers

  /** The fields of a resource locator that the dispatch reads. */
  datatype Locator = Locator(path: string, typeName: Option<string>, typeString: string, isLocal: bool)

  /** The reader classes the factory constructs directly. */
  datatype ReaderKind = CgiReader | SamReader | GeraldReader | BamFileReader | BamHttpReader | GobyReader | GoogleApiReader

  /** A reader: one file, or a merged reader over several, in order. */
  datatype Reader = Single(kind: ReaderKind, path: string) | Merged(readers: seq<Reader>)

  /** The branches of the dispatch, in the order they are tried. */
  datatype Branch = AListBranch | CgiBranch | SamBranch | GeraldBranch | BamBranch | ListBranch | GobyBranch | GoogleBranch

  /** The position of each branch in the chain. */
  function Rank(b: Branch): nat {
    match b
    case AListBranch => 0
    case CgiBranch => 1
    case SamBranch => 2
    case GeraldBranch => 3
    case BamBranch => 4
    case ListBranch => 5
    case GobyBranch => 6
    case GoogleBranch => 7
  }

  // The tests of the dispatch, in the order they are tried.

  predicate IsAList(loc: Locator) {
    loc.typeName == Some("alist")
  }

  predicate IsCgi(loc: Locator) {
    var lower := ToLower(loc.path);
    StartsWith(lower, "http") && Contains(lower, "/query.cgi?")
  }

  predicate IsSam(loc: Locator) {
    EndsWith(loc.typeString, ".sam")
  }

  /** A type string the Gerald reader handles. */
  predicate IsGerald(loc: Locator) {
    var t := loc.typeString;
    EndsWith(t, ".aligned") || EndsWith(t, ".aligned.txt") || EndsWith(t, "bedz")
    || EndsWith(t, "bed") || EndsWith(t, "psl") || EndsWith(t, "pslx")
  }

  predicate IsBam(loc: Locator) {
    EndsWith(loc.typeString, ".bam")
  }

  predicate IsList(loc: Locator) {
    EndsWith(loc.typeString, ".bam.list") || EndsWith(ToLower(loc.path), ".sam.list")
  }

  /** The outcome of each branch's test, in the order they are tried. */
  datatype Tests = Tests(alist: bool, cgi: bool, sam: bool, gerald: bool, bam: bool, list: bool, goby: bool, google: bool)
  {
    predicate Holds(b: Branch) {
      match b
      case AListBranch => alist
      case CgiBranch => cgi
      case SamBranch => sam
      case GeraldBranch => gerald
      case BamBranch => bam
      case ListBranch => list
      case GobyBranch => goby
      case GoogleBranch => google
    }
  }

  /**
   * The tests for a locator, each on its own. `gobySupports` and
   * `googleSupports` are the answers of the Goby and Google API readers' own
   * file-type checks.
   */
  function TestsFor(loc: Locator, gobySupports: bool, googleSupports: bool): Tests {
    Tests(IsAList(loc), IsCgi(loc), IsSam(loc), IsGerald(loc), IsBam(loc), IsList(loc), gobySupports, googleSupports)
  }

  predicate BranchMatches(b: Branch, loc: Locator, gobySupports: bool, googleSupports: bool) {
    TestsFor(loc, gobySupports, googleSupports).Holds(b)
  }

  /** The if/else chain of `getReader`: the first branch whose test holds. */
  function FirstMatch(t: Tests): Option<Branch> {
    if t.alist then Some(AListBranch)
    else if t.cgi then Some(CgiBranch)
    else if t.sam then Some(SamBranch)
    else if t.gerald then Some(GeraldBranch)
    else if t.bam then Some(BamBranch)
    else if t.list then Some(ListBranch)
    else if t.goby then Some(GobyBranch)
    else if t.google then Some(GoogleBranch)
    else None
  }

  /** The dispatch of `getReader`; no match is an error. */
  function SelectBranch(loc: Locator, gobySupports: bool, googleSupports: bool): Result<Branch, string> {
    match FirstMatch(TestsFor(loc, gobySupports, googleSupports))
    case Some(b) => Ok(b)
    case None => Err("Cannot find reader for aligment file: " + loc.path)
  }

  lemma FirstMatchIsFirst(t: Tests, b: Branch)
    ensures FirstMatch(t) == Some(b) <==> t.Holds(b) && forall e: Branch :: Rank(e) < Rank(b) ==> !t.Holds(e)
  {
    if FirstMatch(t) == Some(b) {
      forall e: Branch | Rank(e) < Rank(b) ensures !t.Holds(e) {
        match e
        case AListBranch =>
        case CgiBranch =>
        case SamBranch =>
        case GeraldBranch =>
        case BamBranch =>
        case ListBranch =>
        case GobyBranch =>
        case GoogleBranch =>
      }
    }
    if t.Holds(b) && forall e: Branch :: Rank(e) < Rank(b) ==> !t.Holds(e) {
      assert Rank(b) > 0 ==> !t.Holds(AListBranch);
      assert Rank(b) > 1 ==> !t.Holds(CgiBranch);
      assert Rank(b) > 2 ==> !t.Holds(SamBranch);
      assert Rank(b) > 3 ==> !t.Holds(GeraldBranch);
      assert Rank(b) > 4 ==> !t.Holds(BamBranch);
      assert Rank(b) > 5 ==> !t.Holds(ListBranch);
      assert Rank(b) > 6 ==> !t.Holds(GobyBranch);
    }
  }

  lemma FirstMatchNoneIffNoMatch(t: Tests)
    ensures FirstMatch(t).None? <==> forall e: Branch :: !t.Holds(e)
  {
    if FirstMatch(t).Some? {
      var b := FirstMatch(t).value;
      assert t.Holds(b) by {
        match b
        case AListBranch =>
        case CgiBranch =>
        case SamBranch =>
        case GeraldBranch =>
        case BamBranch =>
        case ListBranch =>
        case GobyBranch =>
        case GoogleBranch =>
      }
    } else {
      forall e: Branch ensures !t.Holds(e) {
        match e
        case AListBranch =>
        case CgiBranch =>
        case SamBranch =>
        case GeraldBranch =>
        case BamBranch =>
        case ListBranch =>
        case GobyBranch =>
        case GoogleBranch =>
      }
    }
  }

  /**
   * The chain takes branch `b` exactly when `b`'s test holds and the test of
   * no branch before it does.
   */
  lemma SelectBranchIsFirstMatch(loc: Locator, gobySupports: bool, googleSupports: bool, b: Branch)
    ensures SelectBranch(loc, gobySupports, googleSupports) == Ok(b) <==>
            BranchMatches(b, loc, gobySupports, googleSupports) &&
            forall e: Branch :: Rank(e) < Rank(b) ==> !BranchMatches(e, loc, gobySupports, googleSupports)
  {
    var t := TestsFor(loc, gobySupports, googleSupports);
    FirstMatchIsFirst(t, b);
    assert forall e: Branch :: BranchMatches(e, loc, gobySupports, googleSupports) == t.Holds(e);
  }

  /** No match anywhere is exactly the error case. */
  lemma SelectBranchFailsIffNoMatch(loc: Locator, gobySupports: bool, googleSupports: bool)
    ensures SelectBranch(loc, gobySupports, googleSupports).Err? <==>
            forall e: Branch :: !BranchMatches(e, loc, gobySupports, googleSupports)
  {
    var t := TestsFor(loc, gobySupports, googleSupports);
    FirstMatchNoneIffNoMatch(t);
    assert forall e: Branch :: BranchMatches(e, loc, gobySupports, googleSupports) == t.Holds(e);
  }

  /** The `.bam` branch picks the local file reader for a local locator and the HTTP reader otherwise. */
  function BamReaderKind(loc: Locator): ReaderKind {
    if loc.isLocal then BamFileReader else BamHttpReader
  }

  // ---------------------------------------------------------------------
  // Merging

  /** One reader is returned as it is; any other number is wrapped in a merged reader. */
  function Collapse(readers: seq<Reader>): (r: Reader)
    ensures |readers| == 1 ==> r == readers[0]
    ensures |readers| != 1 ==> r.Merged? && r.readers == readers
  {
    if |readers| == 1 then readers[0] else Merged(readers)
  }

  /** The reader built from the opened readers, or the first failure. */
  function CollapseOpened(attempt: Result<seq<Reader>, string>): Result<Reader, string> {
    match attempt
    case Ok(readers) => Ok(Collapse(readers))
    case Err(e) => Err(e)
  }

  /**
   * Opening every path in order; the first failure is the result.
   * `open` stands for `getReader` applied to one path.
   */
  function OpenAll(paths: seq<string>, open: string -> Result<Reader, string>): (r: Result<seq<Reader>, string>)
    ensures r.Ok? ==> |r.value| == |paths|
  {
    if paths == [] then Ok([])
    else match open(paths[0])
      case Err(e) => Err(e)
      case Ok(first) =>
        match OpenAll(paths[1..], open)
        case Err(e) => Err(e)
        case Ok(rest) => Ok([first] + rest)
  }

  /** `OpenAll` succeeds iff every path opens, and then yields each path's reader at its own index. */
  lemma {:induction false} OpenAllInOrder(paths: seq<string>, open: string -> Result<Reader, string>)
    ensures OpenAll(paths, open).Ok? <==> forall i :: 0 <= i < |paths| ==> open(paths[i]).Ok?
    ensures OpenAll(paths, open).Ok? ==>
              forall i :: 0 <= i < |paths| ==> OpenAll(paths, open).value[i] == open(paths[i]).value
    ensures OpenAll(paths, open).Err? ==>
              exists k :: 0 <= k < |paths| && open(paths[k]).Err? && OpenAll(paths, open).error == open(paths[k]).error &&
                forall i :: 0 <= i < k ==> open(paths[i]).Ok?
  {
    if paths != [] {
      OpenAllInOrder(paths[1..], open);
      if open(paths[0]).Ok? && OpenAll(paths[1..], open).Err? {
        var k :| 0 <= k < |paths[1..]| && open(paths[1..][k]).Err? && OpenAll(paths[1..], open).error == open(paths[1..][k]).error &&
                 forall i :: 0 <= i < k ==> open(paths[1..][i]).Ok?;
        assert paths[k + 1] == paths[1..][k];
        forall i | 0 <= i < k + 1 ensures open(paths[i]).Ok? {
          if i > 0 { assert paths[i] == paths[1..][i - 1]; }
        }
      }
      if open(paths[0]).Err? {
        assert !open(paths[0]).Ok?;
      }
      forall i | 0 < i < |paths| ensures paths[i] == paths[1..][i - 1] { }
    }
  }

  /** `getMergedReader`: a reader for each comma-separated entry, collapsed when there is one. */
  method GetMergedReader(fileList: string, open: string -> Result<Reader, string>) returns (r: Result<Reader, string>)
    ensures var files := Split(fileList, ',');
            r == CollapseOpened(OpenAll(files, open))
  {
    var files := Split(fileList, ',');
    var readers: seq<Reader> := [];
    var i := 0;
    while i < |files|
      invariant 0 <= i <= |files|
      invariant OpenAll(files[..i], open) == Ok(readers)
    {
      OpenAllAppend(files[..i], files[i], open);
      assert files[..i + 1] == files[..i] + [files[i]];
      match open(files[i]) {
        case Err(e) =>
          OpenAllPrefixError(files[..i + 1], files[i + 1..], open);
          assert files[..i + 1] + files[i + 1..] == files;
          return Err(e);
        case Ok(reader) =>
          readers := readers + [reader];
      }
      i := i + 1;
    }
    assert files[..i] == files;
    r := Ok(Collapse(readers));
  }

  // ---------------------------------------------------------------------
  // `.bam.list` files

  const REPLACE_DIRECTIVE: string := "#replace"

  /**
   * The mapping a `#replace` line defines: exactly two whitespace-separated
   * tokens, the second of which splits on `=` into exactly two parts.
   */
  function ParseReplace(line: string): Option<(string, string)> {
    var tokens := SplitWhitespace(line);
    if |tokens| == 2 then
      var kv := Split(tokens[1], '=');
      if |kv| == 2 then Some((kv[0], kv[1])) else None
    else None
  }

  predicate NoSpace(s: string) {
    forall i | 0 <= i < |s| :: !IsSpace(s[i])
  }

  /** A well-formed directive is read back as the key and value it was written with. */
  lemma ReplaceDirectiveRoundTrip(key: string, value: string)
    requires '=' !in key && '=' !in value && value != []
    requires NoSpace(key) && NoSpace(value)
    ensures ParseReplace(REPLACE_DIRECTIVE + " " + key + "=" + value) == Some((key, value))
  {
    var w := key + "=" + value;
    assert REPLACE_DIRECTIVE + " " + key + "=" + value == REPLACE_DIRECTIVE + " " + w;
    assert NoSpace(w) by {
      forall i | 0 <= i < |w| ensures !IsSpace(w[i]) {
        if i < |key| { assert w[i] == key[i]; }
        else if i > |key| { assert w[i] == value[i - |key| - 1]; }
      }
    }
    DirectiveTokens(w);
    KeyValueParts(key, value);
  }

  lemma DirectiveTokens(w: string)
    requires NoSpace(w) && w != []
    ensures SplitWhitespace(REPLACE_DIRECTIVE + " " + w) == [REPLACE_DIRECTIVE, w]
  {
    var line := REPLACE_DIRECTIVE + " " + w;
    assert line == REPLACE_DIRECTIVE + (" " + w);
    SplitRunsNoSpace(w);
    assert (" " + w)[1..] == w && (" " + w)[0] == ' ' && (" " + w)[1] == w[0];
    assert SplitRuns(" " + w) == [[], w];
    SplitRunsPrefix(REPLACE_DIRECTIVE, " " + w);
    assert REPLACE_DIRECTIVE + [] == REPLACE_DIRECTIVE;
    assert SplitRuns(line) == [REPLACE_DIRECTIVE, w];
    assert IsSpace(line[|REPLACE_DIRECTIVE|]);
  }

  lemma KeyValueParts(key: string, value: string)
    requires '=' !in key && '=' !in value && value != []
    ensures Split(key + "=" + value, '=') == [key, value]
  {
    var w := key + "=" + value;
    SplitAllNoSep(value, '=');
    assert ("=" + value)[1..] == value;
    assert SplitAll("=" + value, '=') == [[], value];
    SplitAllPrefix(key, "=" + value, '=');
    assert w == key + ("=" + value);
    assert key + [] == key;
    assert SplitAll(w, '=') == [key, value];
    assert w[|key|] == '=';
  }

  /** The replacement table: insertion order, a repeated key keeps its place and takes the new value. */
  type Replacements = seq<(string, string)>

  function Put(reps: Replacements, key: string, value: string): (r: Replacements)
    ensures |r| >= |reps|
  {
    if reps == [] then [(key, value)]
    else if reps[0].0 == key then [(key, value)] + reps[1..]
    else [reps[0]] + Put(reps[1..], key, value)
  }

  /** `get(key)`: the value of the entry with that key, if any. */
  function Lookup(reps: Replacements, key: string): Option<string> {
    if reps == [] then None
    else if reps[0].0 == key then Some(reps[0].1)
    else Lookup(reps[1..], key)
  }

  /** After `put(key, value)` the key maps to `value`. */
  lemma {:induction false} PutFinds(reps: Replacements, key: string, value: string)
    ensures Lookup(Put(reps, key, value), key) == Some(value)
  {
    if reps != [] && reps[0].0 != key {
      PutFinds(reps[1..], key, value);
    }
  }

  /** `put(key, value)` leaves the lookup of every other key as it was. */
  lemma {:induction false} PutElsewhere(reps: Replacements, key: string, value: string, other: string)
    requires other != key
    ensures Lookup(Put(reps, key, value), other) == Lookup(reps, other)
  {
    if reps != [] && reps[0].0 != key {
      PutElsewhere(reps[1..], key, value, other);
    }
  }

  /** A key already in the table keeps the position of its entry, which takes the new value. */
  lemma {:induction false} PutReplacesInPlace(reps: Replacements, key: string, value: string, i: int)
    requires 0 <= i < |reps| && reps[i].0 == key
    requires forall j | 0 <= j < i :: reps[j].0 != key
    ensures Put(reps, key, value) == reps[i := (key, value)]
  {
    if i > 0 {
      PutReplacesInPlace(reps[1..], key, value, i - 1);
      assert [reps[0]] + reps[1..][i - 1 := (key, value)] == reps[i := (key, value)];
    }
  }

  /** A key not yet in the table is added as its last entry. */
  lemma {:induction false} PutAppendsNew(reps: Replacements, key: string, value: string)
    requires forall j | 0 <= j < |reps| :: reps[j].0 != key
    ensures Put(reps, key, value) == reps + [(key, value)]
  {
    if reps != [] {
      PutAppendsNew(reps[1..], key, value);
      assert [reps[0]] + (reps[1..] + [(key, value)]) == reps + [(key, value)];
    }
  }

  /** Applying each replacement in table order with Java's `String.replace`. */
  function ApplyReplacements(path: string, reps: Replacements): string
    decreases reps
  {
    if reps == [] then path else ApplyReplacements(ReplaceAll(path, reps[0].0, reps[0].1), reps[1..])
  }

  predicate IsDirective(line: string) {
    StartsWith(line, REPLACE_DIRECTIVE)
  }

  /** The table after a directive line: unchanged when the line is malformed. */
  function AddDirective(reps: Replacements, line: string): Replacements {
    match ParseReplace(line)
    case Some(kv) => Put(reps, kv.0, kv.1)
    case None => reps
  }

  /**
   * The paths of a list file, in file order: one per line that is not a
   * directive, trimmed and rewritten by the replacements read so far.
   */
  function ListPaths(lines: seq<string>, reps: Replacements): seq<string> {
    if lines == [] then []
    else if IsDirective(lines[0]) then ListPaths(lines[1..], AddDirective(reps, lines[0]))
    else [ApplyReplacements(Trim(lines[0]), reps)] + ListPaths(lines[1..], reps)
  }

  function CountEntries(lines: seq<string>): nat {
    if lines == [] then 0 else (if IsDirective(lines[0]) then 0 else 1) + CountEntries(lines[1..])
  }

  /** Every line that is not a directive yields exactly one path, and directives yield none. */
  lemma {:induction false} ListPathsOnePerEntry(lines: seq<string>, reps: Replacements)
    ensures |ListPaths(lines, reps)| == CountEntries(lines)
  {
    if lines != [] {
      ListPathsOnePerEntry(lines[1..], if IsDirective(lines[0]) then AddDirective(reps, lines[0]) else reps);
    }
  }

  /** Without directives, the paths are exactly the trimmed lines, in order. */
  lemma {:induction false} ListPathsWithoutDirectives(lines: seq<string>)
    requires forall i :: 0 <= i < |lines| ==> !IsDirective(lines[i])
    ensures |ListPaths(lines, [])| == |lines|
    ensures forall i :: 0 <= i < |lines| ==> ListPaths(lines, [])[i] == Trim(lines[i])
  {
    if lines != [] {
      var tail := lines[1..];
      assert forall i :: 0 <= i < |tail| ==> !IsDirective(tail[i]) by {
        forall i | 0 <= i < |tail| ensures !IsDirective(tail[i]) {
          assert tail[i] == lines[i + 1];
        }
      }
      ListPathsWithoutDirectives(tail);
      var rest := ListPaths(tail, []);
      var out := ListPaths(lines, []);
      NonDirectiveStep(lines);
      assert |out| == |lines|;
      forall i | 0 <= i < |lines| ensures out[i] == Trim(lines[i]) {
        if i > 0 {
          assert out[i] == rest[i - 1];
          assert tail[i - 1] == lines[i];
        }
      }
    }
  }

  lemma NonDirectiveStep(lines: seq<string>)
    requires lines != [] && !IsDirective(lines[0])
    ensures ListPaths(lines, []) == [Trim(lines[0])] + ListPaths(lines[1..], [])
  {
  }

  /** The table after reading, in order, the directives among `lines`, starting from `reps`. */
  function TableAfter(lines: seq<string>, reps: Replacements): Replacements {
    if lines == [] then reps
    else TableAfter(lines[1..], if IsDirective(lines[0]) then AddDirective(reps, lines[0]) else reps)
  }

  /**
   * The entry on line `j` is the path numbered by the entries before it, and
   * it is rewritten by exactly the directives on the lines before it: those
   * after it have no effect on it.
   */
  lemma {:induction false} EntryPathUsesEarlierDirectives(lines: seq<string>, reps: Replacements, j: int)
    requires 0 <= j < |lines| && !IsDirective(lines[j])
    ensures CountEntries(lines[..j]) < |ListPaths(lines, reps)|
    ensures ListPaths(lines, reps)[CountEntries(lines[..j])] ==
            ApplyReplacements(Trim(lines[j]), TableAfter(lines[..j], reps))
    decreases j
  {
    if j == 0 {
      assert lines[..0] == [];
    } else {
      var tail := lines[1..];
      var next := if IsDirective(lines[0]) then AddDirective(reps, lines[0]) else reps;
      assert tail[j - 1] == lines[j];
      EntryPathUsesEarlierDirectives(tail, next, j - 1);
      PrefixStep(lines, reps, j);
    }
  }

  /** Reading the first line of `lines`, seen from the prefix `lines[..j]` and from the whole of `lines`. */
  lemma PrefixStep(lines: seq<string>, reps: Replacements, j: int)
    requires 0 < j <= |lines|
    ensures var next := if IsDirective(lines[0]) then AddDirective(reps, lines[0]) else reps;
            CountEntries(lines[..j]) == (if IsDirective(lines[0]) then 0 else 1) + CountEntries(lines[1..][..j - 1]) &&
            TableAfter(lines[..j], reps) == TableAfter(lines[1..][..j - 1], next) &&
            ListPaths(lines, reps) ==
              if IsDirective(lines[0]) then ListPaths(lines[1..], next)
              else [ApplyReplacements(Trim(lines[0]), reps)] + ListPaths(lines[1..], reps)
  {
    assert lines[..j][0] == lines[0] && lines[..j][1..] == lines[1..][..j - 1];
  }

  /**
   * `getBamListReader`: a reader for each path of the list file, collapsed
   * when there is exactly one. `lines` are the lines of the list file and
   * `open` stands for `getReader` applied to a path made absolute against it.
   */
  method GetBamListReader(lines: seq<string>, open: string -> Result<Reader, string>) returns (r: Result<Reader, string>)
    ensures r == CollapseOpened(OpenAll(ListPaths(lines, []), open))
  {
    var replacements: Replacements := [];
    var readers: seq<Reader> := [];
    ghost var paths: seq<string> := [];
    var i := 0;
    while i < |lines|
      invariant 0 <= i <= |lines|
      invariant ListPaths(lines, []) == paths + ListPaths(lines[i..], replacements)
      invariant OpenAll(paths, open) == Ok(readers)
    {
      var line := lines[i];
      if StartsWith(line, REPLACE_DIRECTIVE) {
        ListPathsAt(lines, i, replacements);
        replacements := ReadDirective(replacements, line);
      } else {
        var f := ApplyInOrder(Trim(line), replacements);
        EntryStep(lines, i, paths, replacements, open);
        var reader := open(f);
        if reader.Err? {
          return Err(reader.error);
        }
        readers := readers + [reader.value];
        paths := paths + [f];
      }
      i := i + 1;
    }
    assert lines[i..] == [];
    assert paths + [] == paths;
    r := Ok(Collapse(readers));
  }

  /** A `#replace` line: a well-formed one puts its key and value into the table. */
  method ReadDirective(replacements: Replacements, line: string) returns (updated: Replacements)
    ensures ParseReplace(line).None? ==> updated == replacements
    ensures ParseReplace(line).Some? ==>
              var (key, value) := ParseReplace(line).value;
              Lookup(updated, key) == Some(value) &&
              forall other | other != key :: Lookup(updated, other) == Lookup(replacements, other)
    ensures updated == AddDirective(replacements, line)
  {
    updated := replacements;
    var tokens := SplitWhitespace(line);
    if |tokens| == 2 {
      var kv := Split(tokens[1], '=');
      if |kv| == 2 {
        updated := Put(replacements, kv[0], kv[1]);
        PutFinds(replacements, kv[0], kv[1]);
        forall other | other != kv[0] ensures Lookup(updated, other) == Lookup(replacements, other) {
          PutElsewhere(replacements, kv[0], kv[1], other);
        }
      }
    }
  }

  /** The replacement loop for one path: each entry of the table, in order. */
  method ApplyInOrder(path: string, replacements: Replacements) returns (f: string)
    ensures f == ApplyReplacements(path, replacements)
  {
    f := path;
    var j := 0;
    while j < |replacements|
      invariant 0 <= j <= |replacements|
      invariant ApplyReplacements(f, replacements[j..]) == ApplyReplacements(path, replacements)
    {
      assert replacements[j..][1..] == replacements[j + 1..];
      f := ReplaceAll(f, replacements[j].0, replacements[j].1);
      j := j + 1;
    }
    assert replacements[j..] == [];
  }

  lemma ListPathsAt(lines: seq<string>, i: nat, reps: Replacements)
    requires i < |lines|
    ensures ListPaths(lines[i..], reps) ==
            if IsDirective(lines[i]) then ListPaths(lines[i + 1..], AddDirective(reps, lines[i]))
            else [ApplyReplacements(Trim(lines[i]), reps)] + ListPaths(lines[i + 1..], reps)
  {
    assert lines[i..][0] == lines[i] && lines[i..][1..] == lines[i + 1..];
  }

  /** One list entry read by the loop of `getBamListReader`: its path joins the prefix, or its failure is the result. */
  lemma EntryStep(lines: seq<string>, i: nat, paths: seq<string>, reps: Replacements,
                  open: string -> Result<Reader, string>)
    requires i < |lines| && !IsDirective(lines[i])
    requires ListPaths(lines, []) == paths + ListPaths(lines[i..], reps)
    requires OpenAll(paths, open).Ok?
    ensures var f := ApplyReplacements(Trim(lines[i]), reps);
            ListPaths(lines, []) == (paths + [f]) + ListPaths(lines[i + 1..], reps) &&
            (open(f).Ok? ==> OpenAll(paths + [f], open) == Ok(OpenAll(paths, open).value + [open(f).value])) &&
            (open(f).Err? ==> OpenAll(ListPaths(lines, []), open) == Err(open(f).error))
  {
    var f := ApplyReplacements(Trim(lines[i]), reps);
    var rest := ListPaths(lines[i + 1..], reps);
    ListPathsAt(lines, i, reps);
    assert paths + ([f] + rest) == (paths + [f]) + rest;
    OpenAllAppend(paths, f, open);
    if open(f).Err? {
      OpenAllPrefixError(paths + [f], rest, open);
    }
  }

  lemma {:induction false} OpenAllAppend(paths: seq<string>, p: string, open: string -> Result<Reader, string>)
    requires OpenAll(paths, open).Ok?
    ensures OpenAll(paths + [p], open) == match open(p)
                                         case Ok(x) => Ok(OpenAll(paths, open).value + [x])
                                         case Err(e) => Err(e)
  {
    if paths == [] {
      assert paths + [p] == [p] && [p][1..] == [];
      if open(p).Ok? {
        assert [open(p).value] + [] == [] + [open(p).value];
      }
    } else {
      assert (paths + [p])[0] == paths[0];
      assert (paths + [p])[1..] == paths[1..] + [p];
      OpenAllAppend(paths[1..], p, open);
      var first := open(paths[0]).value;
      assert OpenAll(paths, open).value == [first] + OpenAll(paths[1..], open).value;
      if open(p).Ok? {
        assert [first] + (OpenAll(paths[1..], open).value + [open(p).value]) ==
               ([first] + OpenAll(paths[1..], open).value) + [open(p).value];
      }
    }
  }

  lemma {:induction false} OpenAllPrefixError(prefix: seq<string>, rest: seq<string>, open: string -> Result<Reader, string>)
    requires OpenAll(prefix, open).Err?
    ensures OpenAll(prefix + rest, open) == OpenAll(prefix, open)
  {
    assert prefix != [];
    assert (prefix + rest)[1..] == prefix[1..] + rest;
    if open(prefix[0]).Ok? {
      OpenAllPrefixError(prefix[1..], rest, open);
    }
  }

  // ---------------------------------------------------------------------
  // The whole factory

  /**
   * An exception a reader constructor throws; `text` is its `toString()`.
   * A `MalformedURLException` is an `IOException`; an unchecked exception is
   * caught by no branch.
   */
  datatype Thrown = MalformedUrl(text: string) | OtherIo(text: string) | Unchecked(text: string)

  /** The reader class a single-reader branch constructs. */
  function KindOf(loc: Locator, b: Branch): ReaderKind
    requires !b.AListBranch? && !b.ListBranch?
  {
    match b
    case CgiBranch => CgiReader
    case SamBranch => SamReader
    case GeraldBranch => GeraldReader
    case BamBranch => BamReaderKind(loc)
    case GobyBranch => GobyReader
    case GoogleBranch => GoogleApiReader
  }

  /**
   * `getReader`. `listLines` are the lines of the list file named by the
   * locator (read only on the list branch), `open` stands for `getReader`
   * applied to one nested path, and `construct` gives the exception a reader
   * constructor throws for a path, `None` when it returns a reader.
   */
  method GetReader(loc: Locator, gobySupports: bool, googleSupports: bool,
                   listLines: seq<string>, open: string -> Result<Reader, string>,
                   construct: (ReaderKind, string) -> Option<Thrown>)
    returns (r: Result<Reader, string>)
    ensures match SelectBranch(loc, gobySupports, googleSupports)
            case Err(e) => r == Err(e)
            case Ok(AListBranch) =>
              r == CollapseOpened(OpenAll(Split(loc.path, ','), open))
            case Ok(ListBranch) =>
              r == CollapseOpened(OpenAll(ListPaths(listLines, []), open))
            case Ok(b) =>
              var kind := KindOf(loc, b);
              match construct(kind, loc.path)
              case None => r == Ok(Single(kind, loc.path))
              case Some(MalformedUrl(t)) =>
                r == Err(if kind == BamHttpReader then "Error loading BAM file: " + t
                         else if kind == GobyReader then "Cannot load Goby alignment " + loc.path
                         else t)
              case Some(OtherIo(t)) =>
                r == Err(if kind == GobyReader then "Cannot load Goby alignment " + loc.path else t)
              case Some(Unchecked(t)) => r == Err(t)
  {
    var branch := SelectBranch(loc, gobySupports, googleSupports);
    match branch {
      case Err(e) => r := Err(e);
      case Ok(AListBranch) => r := GetMergedReader(loc.path, open);
      case Ok(ListBranch) => r := GetBamListReader(listLines, open);
      case Ok(b) =>
        var kind := KindOf(loc, b);
        match construct(kind, loc.path) {
          case None => r := Ok(Single(kind, loc.path));
          case Some(MalformedUrl(t)) =>
            if kind == BamHttpReader {
              r := Err("Error loading BAM file: " + t);
            } else if kind == GobyReader {
              r := Err("Cannot load Goby alignment " + loc.path);
            } else {
              r := Err(t);
            }
          case Some(OtherIo(t)) =>
            if kind == GobyReader {
              r := Err("Cannot load Goby alignment " + loc.path);
            } else {
              r := Err(t);
            }
          case Some(Unchecked(t)) => r := Err(t);
        }
    }
  }

  // ---------------------------------------------------------------------
  // Platforms

  datatype ReadGroup = ReadGroup(platform: Option<string>)
  datatype Header = Header(readGroups: Option<seq<ReadGroup>>)

  /** `getPlatforms`: null without a header or read groups, else the upper-cased non-null platforms. */
  method GetPlatforms(header: Option<Header>) returns (platforms: Option<set<string>>)
    ensures platforms.None? <==> header.None? || header.value.readGroups.None?
    ensures platforms.Some? ==>
              forall p :: p in platforms.value <==>
                exists rg :: rg in header.value.readGroups.value && rg.platform.Some? && p == ToUpper(rg.platform.value)
  {
    platforms := None;
    if header.Some? {
      var readGroups := header.value.readGroups;
      if readGroups.Some? {
        var groups := readGroups.value;
        var found: set<string> := {};
        var i := 0;
        while i < |groups|
          invariant 0 <= i <= |groups|
          invariant forall p :: p in found <==>
                      exists rg :: rg in groups[..i] && rg.platform.Some? && p == ToUpper(rg.platform.value)
        {
          assert groups[..i + 1] == groups[..i] + [groups[i]];
          var platform := groups[i].platform;
          if platform.Some? {
            found := found + {ToUpper(platform.value)};
          }
          i := i + 1;
        }
        assert groups[..i] == groups;
        platforms := Some(found);
      }
    }
  }
}
