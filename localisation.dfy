/** The "Найти ID по локализации" search: every `.yml` file under the game's `localisation`
    folder is read line by line, comments and surrounding whitespace are dropped, and each
    line whose remaining text contains the query, ignoring case, is reported with its file
    and its 1-based line number. */
module Localisation {
  import opened Text

  /** A file `os.walk` lists, with the lines reading it yields (each with its line break, as
      Python's text mode delivers them). A file that cannot be decoded contributes the lines
      read before the error. */
  datatype LocFile = LocFile(name: string, lines: seq<string>)

  /** One step of `os.walk(loc_dir)`: a folder and the files directly in it. */
  datatype WalkEntry = WalkEntry(root: string, files: seq<LocFile>)

  /** One search result: the cleaned line, the folder and name of its file, its line number. */
  datatype LocMatch = LocMatch(text: string, dir: string, file: string, line: nat)

  /** What the search callback ends with. */
  datatype SearchOutcome =
    | NoModSelected            // "Сначала выбери .mod файл!"
    | Cancelled                // the query dialog was closed or left empty
    | LocDirUnbound            // no game path: `loc_dir` is never assigned and the callback raises
    | NoMatches                // "Совпадений не найдено."
    | Found(results: seq<LocMatch>)

  /** Only files named `*.yml` are opened. */
  predicate IsYml(name: string)
  {
    EndsWith(name, ".yml")
  }

  /** `line.split("#")[0].strip()`. */
  function CleanLine(line: string): string
  {
    Strip(BeforeFirst(line, '#'))
  }

  /** The cleaned text of a line is a piece of the line holding no `#` and neither starting nor
      ending with whitespace. */
  lemma CleanLineShape(line: string)
    ensures '#' !in CleanLine(line)
    ensures CleanLine(line) != [] ==> !IsSpace(CleanLine(line)[0]) && !IsSpace(CleanLine(line)[|CleanLine(line)| - 1])
    ensures exists a, b :: 0 <= a <= b <= |line| && CleanLine(line) == line[a..b]
  {
    var before := BeforeFirst(line, '#');
    BeforeFirstIsPrefix(line, '#');
    StripRemovesSpaces(before);
    var a, b :| StrippedAt(before, a, b) && Strip(before) == before[a..b];
    PieceOfPiece(line, before, a, b);
  }

  /** A piece of a prefix of `s` is the same piece of `s`, and holds only characters of the prefix. */
  lemma PieceOfPiece(s: string, p: string, a: int, b: int)
    requires p <= s && 0 <= a <= b <= |p|
    ensures p[a..b] == s[a..b]
    ensures forall ch :: ch in p[a..b] ==> ch in p
    ensures a < b ==> p[a..b][0] == p[a] && p[a..b][b - a - 1] == p[b - 1]
  {
    assert forall i :: 0 <= i < b - a ==> p[a..b][i] == p[a + i];
  }

  /** `query.lower() in clean_line.lower()`, where `needle` is the lower-cased query. */
  predicate Matches(needle: string, text: string)
  {
    Contains(Lower(text), needle)
  }

  /** The test the search applies to a cleaned line, for the lower-cased query `needle`. */
  function Hit(needle: string): string -> bool
  {
    text => Matches(needle, text)
  }

  /** The three decisions of the search: which files it reads (by name), how it cleans a line
      and which cleaned lines it reports. The results below are defined for any criteria. */
  datatype Criteria = Criteria(scans: string -> bool, clean: string -> string, hit: string -> bool)

  /** The criteria of a search for `query`: `.yml` files, `CleanLine`, and containment of the
      lower-cased query in the lower-cased cleaned line. */
  function Query(query: string): Criteria
  {
    Criteria(IsYml, CleanLine, Hit(Lower(query)))
  }

  /* A reported line carries its cleaned text, its folder, its file name and its 1-based number. */

  /** The results the first `k` lines of file `name` in folder `dir` give, in order. */
  function LinesResults(dir: string, name: string, lines: seq<string>, c: Criteria, k: nat): seq<LocMatch>
    requires k <= |lines|
  {
    if k == 0 then []
    else
      var text := c.clean(lines[k - 1]);
      LinesResults(dir, name, lines, c, k - 1) + (if c.hit(text) then [LocMatch(text, dir, name, k)] else [])
  }

  /** The results one file of folder `dir` gives: none unless the criteria read it. */
  function FileResults(dir: string, f: LocFile, c: Criteria): seq<LocMatch>
  {
    if c.scans(f.name) then LinesResults(dir, f.name, f.lines, c, |f.lines|) else []
  }

  /** The results the first `k` files of folder `dir` give, in the order `os.walk` lists them. */
  function FilesResults(dir: string, files: seq<LocFile>, c: Criteria, k: nat): seq<LocMatch>
    requires k <= |files|
  {
    if k == 0 then [] else FilesResults(dir, files, c, k - 1) + FileResults(dir, files[k - 1], c)
  }

  /** The results the first `k` folders of the walk give. */
  function WalkResults(walk: seq<WalkEntry>, c: Criteria, k: nat): seq<LocMatch>
    requires k <= |walk|
  {
    if k == 0 then []
    else WalkResults(walk, c, k - 1) + FolderResults(walk[k - 1], c)
  }

  /** The results of all files of folder `e`. */
  function FolderResults(e: WalkEntry, c: Criteria): seq<LocMatch>
  {
    FilesResults(e.root, e.files, c, |e.files|)
  }

  /** Everything the search for `query` over the walk reports, in order. */
  function TreeResults(walk: seq<WalkEntry>, query: string): seq<LocMatch>
  {
    WalkResults(walk, Query(query), |walk|)
  }

  /** The innermost loop of `find_localization_id`: the lines of one `.yml` file, numbered
      from 1, each cleaned and reported when it contains the query. */
  method ScanFile(root: string, file: LocFile, query: string) returns (found: seq<LocMatch>)
    requires IsYml(file.name)
    ensures found == FileResults(root, file, Query(query))
  {
    found := [];
    for n := 0 to |file.lines|
      invariant found == LinesResults(root, file.name, file.lines, Query(query), n)
    {
      var clean := CleanLine(file.lines[n]);
      assert Query(query).hit(clean) == Contains(Lower(clean), Lower(query));
      if Contains(Lower(clean), Lower(query)) {
        found := found + [LocMatch(clean, root, file.name, n + 1)];
      }
    }
  }

  /** The middle loop of `find_localization_id`: the files `os.walk` lists in one folder, in
      order; only `.yml` files are read. */
  method ScanFolder(entry: WalkEntry, query: string) returns (found: seq<LocMatch>)
    ensures found == FolderResults(entry, Query(query))
  {
    found := [];
    for j := 0 to |entry.files|
      invariant found == FilesResults(entry.root, entry.files, Query(query), j)
    {
      var file := entry.files[j];
      if IsYml(file.name) {
        var more := ScanFile(entry.root, file, query);
        found := found + more;
      }
    }
  }

  /** The scan of `find_localization_id`: the outer loop over the folders `os.walk` yields. */
  method SearchTree(walk: seq<WalkEntry>, query: string) returns (results: seq<LocMatch>)
    ensures results == TreeResults(walk, query)
  {
    results := [];
    for i := 0 to |walk|
      invariant results == WalkResults(walk, Query(query), i)
    {
      var found := ScanFolder(walk[i], query);
      results := results + found;
    }
  }

  /** The `find_localization_id` callback. `modPath` is the selected mod folder, `query` what the
      dialog returned (`None` when it was closed), `gamePath` the game folder read from the
      settings (empty when unset or missing) and `walk` what `os.walk` lists under its
      `localisation` folder. */
  method FindLocalizationId(modPath: string, query: Option<string>, gamePath: string, walk: seq<WalkEntry>)
    returns (outcome: SearchOutcome)
    ensures modPath == "" <==> outcome == NoModSelected
    ensures (modPath != "" && (query == None || query == Some(""))) <==> outcome == Cancelled
    ensures outcome == LocDirUnbound <==> modPath != "" && query.Some? && query.value != "" && gamePath == ""
    ensures outcome.Found? || outcome == NoMatches
            ==> modPath != "" && query.Some? && query.value != "" && gamePath != ""
    ensures outcome.Found? ==> outcome.results == TreeResults(walk, query.value) && outcome.results != []
    ensures outcome == NoMatches ==> TreeResults(walk, query.value) == []
  {
    if modPath == "" {
      return NoModSelected;
    }
    if query == None || query.value == "" {
      return Cancelled;
    }
    if gamePath == "" {
      return LocDirUnbound;
    }
    var results := SearchTree(walk, query.value);
    if results != [] {
      outcome := Found(results);
    } else {
      outcome := NoMatches;
    }
  }

  /** Result `m` reports line `m.line` of file `f` in folder `dir`: a `.yml` file, a line that
      exists and is reported once cleaned, and `m.text` is that cleaned text. */
  ghost predicate FoundIn(dir: string, f: LocFile, c: Criteria, m: LocMatch)
  {
    && m.dir == dir && m.file == f.name && c.scans(f.name)
    && 1 <= m.line <= |f.lines|
    && c.hit(c.clean(f.lines[m.line - 1]))
    && m.text == c.clean(f.lines[m.line - 1])
  }

  /** The results of the first `k` lines are exactly the matching lines among them. */
  lemma {:induction false} LinesResultsMembers(dir: string, name: string, lines: seq<string>, c: Criteria, k: nat, m: LocMatch)
    requires k <= |lines|
    ensures (m in LinesResults(dir, name, lines, c, k))
            <==> (m.dir == dir && m.file == name && 1 <= m.line <= k
                  && c.hit(c.clean(lines[m.line - 1])) && m.text == c.clean(lines[m.line - 1]))
  {
    if k > 0 {
      LinesResultsMembers(dir, name, lines, c, k - 1, m);
    }
  }

  /** Within one file the results carry strictly increasing line numbers, all between 1 and `k`. */
  lemma {:induction false} LinesResultsIncreasing(dir: string, name: string, lines: seq<string>, c: Criteria, k: nat)
    requires k <= |lines|
    ensures forall a :: 0 <= a < |LinesResults(dir, name, lines, c, k)| ==> 1 <= LinesResults(dir, name, lines, c, k)[a].line <= k
    ensures forall a, b :: 0 <= a < b < |LinesResults(dir, name, lines, c, k)|
              ==> LinesResults(dir, name, lines, c, k)[a].line < LinesResults(dir, name, lines, c, k)[b].line
  {
    if k > 0 {
      LinesResultsIncreasing(dir, name, lines, c, k - 1);
      var prev := LinesResults(dir, name, lines, c, k - 1);
      var r := LinesResults(dir, name, lines, c, k);
      var text := c.clean(lines[k - 1]);
      if c.hit(text) {
        assert r == prev + [LocMatch(text, dir, name, k)];
        forall a | 0 <= a < |r| ensures 1 <= r[a].line <= k {
          if a < |prev| {
            assert r[a] == prev[a];
          }
        }
        forall a, b | 0 <= a < b < |r| ensures r[a].line < r[b].line {
          assert r[a] == prev[a];
          if b < |prev| {
            assert r[b] == prev[b];
          }
        }
      } else {
        assert r == prev;
      }
    }
  }

  /** A file's results are exactly its matching lines, and a file not named `*.yml` gives none. */
  lemma FileResultsMembers(dir: string, f: LocFile, c: Criteria, m: LocMatch)
    ensures m in FileResults(dir, f, c) <==> FoundIn(dir, f, c, m)
    ensures !c.scans(f.name) ==> FileResults(dir, f, c) == []
  {
    LinesResultsMembers(dir, f.name, f.lines, c, |f.lines|, m);
  }

  /** The results of the first `k` files of a folder are the results of those files. */
  lemma {:induction false} FilesResultsMembers(dir: string, files: seq<LocFile>, c: Criteria, k: nat, m: LocMatch)
    requires k <= |files|
    ensures (m in FilesResults(dir, files, c, k))
            <==> exists j :: 0 <= j < k && FoundIn(dir, files[j], c, m)
  {
    if k > 0 {
      var x := FilesResults(dir, files, c, k - 1);
      var y := FileResults(dir, files[k - 1], c);
      assert FilesResults(dir, files, c, k) == x + y;
      FilesResultsMembers(dir, files, c, k - 1, m);
      FileResultsMembers(dir, files[k - 1], c, m);
      if exists j :: 0 <= j < k && FoundIn(dir, files[j], c, m) {
        var j :| 0 <= j < k && FoundIn(dir, files[j], c, m);
        if j < k - 1 {
          assert m in x;
        } else {
          assert m in y;
        }
      }
    }
  }

  /** The results of the first `k` folders are the results of their files. */
  lemma {:induction false} WalkResultsMembers(walk: seq<WalkEntry>, c: Criteria, k: nat, m: LocMatch)
    requires k <= |walk|
    ensures (m in WalkResults(walk, c, k)) <==> exists i :: 0 <= i < k && m in FolderResults(walk[i], c)
  {
    if k > 0 {
      var x := WalkResults(walk, c, k - 1);
      var y := FolderResults(walk[k - 1], c);
      assert WalkResults(walk, c, k) == x + y;
      WalkResultsMembers(walk, c, k - 1, m);
      if exists i :: 0 <= i < k && m in FolderResults(walk[i], c) {
        var i :| 0 <= i < k && m in FolderResults(walk[i], c);
        if i < k - 1 {
          assert m in x;
        } else {
          assert m in y;
        }
      }
    }
  }

  /** Result `m` names line `m.line` of a `.yml` file `f` in folder `dir`, the line exists, its
      cleaned text contains the query ignoring case, and `m.text` is that cleaned text. */
  ghost predicate Reports(dir: string, f: LocFile, query: string, m: LocMatch)
  {
    && m.dir == dir && m.file == f.name && EndsWith(f.name, ".yml")
    && 1 <= m.line <= |f.lines|
    && Contains(Lower(CleanLine(f.lines[m.line - 1])), Lower(query))
    && m.text == CleanLine(f.lines[m.line - 1])
  }

  /** A result is reported exactly when it names a matching line of a `.yml` file of the walk. */
  lemma SearchFindsExactlyTheMatchingLines(walk: seq<WalkEntry>, query: string)
    ensures forall m :: m in TreeResults(walk, query)
              <==> exists i, j :: 0 <= i < |walk| && 0 <= j < |walk[i].files| && Reports(walk[i].root, walk[i].files[j], query, m)
  {
    forall m
      ensures m in TreeResults(walk, query)
              <==> exists i, j :: 0 <= i < |walk| && 0 <= j < |walk[i].files| && Reports(walk[i].root, walk[i].files[j], query, m)
    {
      var c := Query(query);
      WalkResultsMembers(walk, c, |walk|, m);
      forall i | 0 <= i < |walk|
        ensures (m in FilesResults(walk[i].root, walk[i].files, c, |walk[i].files|))
                <==> exists j :: 0 <= j < |walk[i].files| && Reports(walk[i].root, walk[i].files[j], query, m)
      {
        FilesResultsMembers(walk[i].root, walk[i].files, c, |walk[i].files|, m);
        assert forall j :: 0 <= j < |walk[i].files| ==>
                 (FoundIn(walk[i].root, walk[i].files[j], c, m) <==> Reports(walk[i].root, walk[i].files[j], query, m));
      }
    }
  }

  /** Results of the same file come out in increasing line order. */
  predicate InFileOrder(r: seq<LocMatch>)
  {
    forall a, b :: 0 <= a < b < |r| && r[a].dir == r[b].dir && r[a].file == r[b].file ==> r[a].line < r[b].line
  }

  /** Two result lists in file order that share no file stay in file order when joined. */
  lemma InFileOrderConcat(x: seq<LocMatch>, y: seq<LocMatch>)
    requires InFileOrder(x) && InFileOrder(y)
    requires forall a, b :: 0 <= a < |x| && 0 <= b < |y| ==> x[a].dir != y[b].dir || x[a].file != y[b].file
    ensures InFileOrder(x + y)
  {
    forall a, b | 0 <= a < b < |x + y| && (x + y)[a].dir == (x + y)[b].dir && (x + y)[a].file == (x + y)[b].file
      ensures (x + y)[a].line < (x + y)[b].line
    {
      if b < |x| {
        assert (x + y)[a] == x[a] && (x + y)[b] == x[b];
      } else {
        assert (x + y)[b] == y[b - |x|];
        assert (x + y)[a] == y[a - |x|];
      }
    }
  }

  /** A result of the first `k - 1` files and one of file `k - 1` name different files, when
      the names in the folder are distinct. */
  lemma FilesResultsSeparate(dir: string, files: seq<LocFile>, c: Criteria, k: nat, m: LocMatch, m': LocMatch)
    requires 0 < k <= |files|
    requires forall j1, j2 :: 0 <= j1 < j2 < |files| ==> files[j1].name != files[j2].name
    requires m in FilesResults(dir, files, c, k - 1) && m' in FileResults(dir, files[k - 1], c)
    ensures m.file != m'.file
  {
    FilesResultsOrigin(dir, files, c, k - 1, m);
    FileResultsMembers(dir, files[k - 1], c, m');
  }

  /** The first `k` files of a folder whose file names are distinct give results in file order. */
  lemma {:induction false} FilesResultsInFileOrder(dir: string, files: seq<LocFile>, c: Criteria, k: nat)
    requires k <= |files|
    requires forall j1, j2 :: 0 <= j1 < j2 < |files| ==> files[j1].name != files[j2].name
    ensures InFileOrder(FilesResults(dir, files, c, k))
  {
    if k > 0 {
      FilesResultsInFileOrder(dir, files, c, k - 1);
      var f := files[k - 1];
      var x := FilesResults(dir, files, c, k - 1);
      var y := FileResults(dir, f, c);
      if c.scans(f.name) {
        LinesResultsIncreasing(dir, f.name, f.lines, c, |f.lines|);
      }
      forall a, b | 0 <= a < |x| && 0 <= b < |y| ensures x[a].dir != y[b].dir || x[a].file != y[b].file {
        FilesResultsSeparate(dir, files, c, k, x[a], y[b]);
      }
      InFileOrderConcat(x, y);
    }
  }

  /** Every result of the first `k` files of folder `dir` names `dir` and one of those files. */
  lemma {:induction false} FilesResultsOrigin(dir: string, files: seq<LocFile>, c: Criteria, k: nat, m: LocMatch)
    requires k <= |files| && m in FilesResults(dir, files, c, k)
    ensures m.dir == dir && exists j :: 0 <= j < k && m.file == files[j].name
  {
    var x := FilesResults(dir, files, c, k - 1);
    var y := FileResults(dir, files[k - 1], c);
    assert FilesResults(dir, files, c, k) == x + y;
    if m in x {
      FilesResultsOrigin(dir, files, c, k - 1, m);
    } else {
      FileResultsMembers(dir, files[k - 1], c, m);
    }
  }

  /** Every result of the first `k` folders names one of those folders. */
  lemma {:induction false} WalkResultsFolders(walk: seq<WalkEntry>, c: Criteria, k: nat, m: LocMatch)
    requires k <= |walk| && m in WalkResults(walk, c, k)
    ensures exists i :: 0 <= i < k && m.dir == walk[i].root
  {
    var x := WalkResults(walk, c, k - 1);
    var y := FilesResults(walk[k - 1].root, walk[k - 1].files, c, |walk[k - 1].files|);
    assert WalkResults(walk, c, k) == x + y;
    if m in x {
      WalkResultsFolders(walk, c, k - 1, m);
    } else {
      FilesResultsOrigin(walk[k - 1].root, walk[k - 1].files, c, |walk[k - 1].files|, m);
    }
  }

  /** A result of the first `k - 1` folders and one of folder `k - 1` name different folders,
      when the folders are distinct. */
  lemma WalkResultsSeparate(walk: seq<WalkEntry>, c: Criteria, k: nat, m: LocMatch, m': LocMatch)
    requires 0 < k <= |walk|
    requires forall i1, i2 :: 0 <= i1 < i2 < |walk| ==> walk[i1].root != walk[i2].root
    requires m in WalkResults(walk, c, k - 1)
    requires m' in FilesResults(walk[k - 1].root, walk[k - 1].files, c, |walk[k - 1].files|)
    ensures m.dir != m'.dir
  {
    WalkResultsFolders(walk, c, k - 1, m);
    FilesResultsOrigin(walk[k - 1].root, walk[k - 1].files, c, |walk[k - 1].files|, m');
  }

  /** The first `k` folders of a walk with distinct folders, each holding distinct file names,
      give results in file order. */
  lemma {:induction false} WalkResultsInFileOrder(walk: seq<WalkEntry>, c: Criteria, k: nat)
    requires k <= |walk|
    requires forall i1, i2 :: 0 <= i1 < i2 < |walk| ==> walk[i1].root != walk[i2].root
    requires forall i, j1, j2 :: 0 <= i < |walk| && 0 <= j1 < j2 < |walk[i].files| ==> walk[i].files[j1].name != walk[i].files[j2].name
    ensures InFileOrder(WalkResults(walk, c, k))
  {
    if k > 0 {
      WalkResultsInFileOrder(walk, c, k - 1);
      var e := walk[k - 1];
      var x := WalkResults(walk, c, k - 1);
      var y := FilesResults(e.root, e.files, c, |e.files|);
      FilesResultsInFileOrder(e.root, e.files, c, |e.files|);
      forall a, b | 0 <= a < |x| && 0 <= b < |y| ensures x[a].dir != y[b].dir || x[a].file != y[b].file {
        WalkResultsSeparate(walk, c, k, x[a], y[b]);
      }
      InFileOrderConcat(x, y);
    }
  }

  /** Over a walk as `os.walk` yields it (each folder once, each name once per folder), the
      results of one file appear in increasing line order. */
  lemma SearchKeepsLineOrder(walk: seq<WalkEntry>, query: string)
    requires forall i1, i2 :: 0 <= i1 < i2 < |walk| ==> walk[i1].root != walk[i2].root
    requires forall i, j1, j2 :: 0 <= i < |walk| && 0 <= j1 < j2 < |walk[i].files| ==> walk[i].files[j1].name != walk[i].files[j2].name
    ensures InFileOrder(TreeResults(walk, query))
  {
    WalkResultsInFileOrder(walk, Query(query), |walk|);
  }

  /** The search ignores the case of the query. */
  lemma SearchIgnoresQueryCase(walk: seq<WalkEntry>, query: string)
    ensures TreeResults(walk, Upper(query)) == TreeResults(walk, query)
    ensures TreeResults(walk, Lower(query)) == TreeResults(walk, query)
  {
    LowerOfUpper(query);
  }

  /** Cleaning is idempotent: a cleaned line is its own cleaned form. */
  lemma CleanLineIdempotent(line: string)
    ensures CleanLine(CleanLine(line)) == CleanLine(line)
  {
    var r := CleanLine(line);
    CleanLineShape(line);
    BeforeFirstIsPrefix(r, '#');
    assert BeforeFirst(r, '#') == r;
    StripRemovesSpaces(r);
    var a, b :| StrippedAt(r, a, b) && Strip(r) == r[a..b];
    if r != [] {
      assert a == 0 && b == |r|;
    }
  }

  /** A trailing comment is dropped with the blank before it: the line `text # comment` is
      cleaned to `text` when `text` holds no `#` and neither starts nor ends with whitespace. */
  lemma CommentIsDropped(text: string, comment: string)
    requires '#' !in text
    requires text != [] ==> !IsSpace(text[0]) && !IsSpace(text[|text| - 1])
    ensures CleanLine(text + " # " + comment) == text
  {
    assert text + " # " + comment == (text + " ") + ['#'] + (" " + comment);
    BeforeFirstOfSplit(text + " ", '#', " " + comment);
    assert (text + " ")[..|text|] == text;
    if text == [] {
      assert Strip(" ") == Strip("");
    } else {
      assert (text + " ")[0] == text[0];
      assert Strip(text + " ") == Strip(text);
    }
  }
}
