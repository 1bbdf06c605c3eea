# HOI4 mod helper: a verified model of its text handling

The tool is a small desktop helper for Hearts of Iron IV modders, written in Python (`main.py`).
Three of its callbacks hold actual logic, and this project models them in Dafny:

- **Reading the mod folder out of a `.mod` descriptor.** The callback runs
  `re.search(r'path="(.+?)"', content)` and stores group 1 as the mod path. When nothing
  matches, it shows an error and keeps the old path. This is module `ModDescriptor`.
  - The regex engine's leftmost, lazy, no-newline search is defined as functions.
  - These functions are proved equal to a declarative description of the match.
  - `Session` holds the mod path the callback updates.
- **Creating a country.** The callback validates the form and looks the graphical culture
  up in a fixed table. It then creates three folders, writes two per-country files in mode
  `"w"` and appends one line to each of two registries in mode `"a"`. This is module `Country`.
  - The file system is a class `FileSystem`. Its fields are a map from paths to contents and
    a set of folders.
  - `CreateCountry` performs the callback's own sequence of `makedirs`, open and write calls
    on that class.
  - It is proved to agree with the value-level function `CreateCountrySpec`. Lemmas state
    what the callback promises about `CreateCountrySpec`.
- **Searching the localisation files.** The search callback walks the game's `localisation`
  folder and reads every `*.yml` file line by line. For each line it:
  - keeps the text before the first `#`;
  - strips surrounding whitespace;
  - reports the line when it contains the query, ignoring case, with its file and its
    1-based line number.

  This is module `Localisation`. The three nested loops are methods with loop invariants.
  They are proved equal to the result functions `LinesResults`, `FilesResults` and
  `WalkResults`, and lemmas state which lines the search reports and in what order.

Module `Text` holds the parts of Python's `str` that these callbacks use: `upper`, `lower`,
`split(c)[0]`, `strip`, `endswith` and `in`. `endswith` is a one-line definition,
`EndsWith`. Each of the others is specified by a lemma.

Inputs the program obtains through I/O are parameters of the model:
- the descriptor's text;
- the form's fields;
- the query the dialog returns;
- the game folder read from the settings;
- the lines each file yields, and the folders and files `os.walk` lists.

## Model

| member | source | states |
|---|---|---|
| `ModDescriptor.LazyClose` | main.py:73 | With the group holding everything before `q`, the lazy `.+?"` tail closes at the first quote at or after `q` when no newline comes before it. Otherwise there is no close: every later quote has a newline before it. |
| `ModDescriptor.MatchAt` | main.py:73 | An attempt at one start index returns the shortest match there, or none exactly when no match starts there. |
| `ModDescriptor.SearchFrom` | main.py:73 | A search from index `i` returns the first start with a match, and its shortest match. It returns none exactly when no match starts at or after `i`. |
| `ModDescriptor.Search` | main.py:73 | `re.search` returns the leftmost start and, at that start, the shortest match. It returns none exactly when the pattern matches nowhere. |
| `ModDescriptor.ModPathOf` | main.py:73-75 | Group 1 is the group of the leftmost-shortest match. It is never empty and holds no newline. Only its first character can be a quote. It sits between `path="` and a closing `"` in the content. There is no group exactly when nothing matches. |
| `ModDescriptor.ModPathOfIsLeftmost` | main.py:73-75 | For any leftmost-shortest match, group 1 is exactly the text of that match between `path="` and its closing quote. A later `path="..."` is never chosen. |
| `ModDescriptor.NotAQuoteBeforeClose` | main.py:73 | No character of the lazy group after its first is a quote. |
| `ModDescriptor.SearchFindsTheSearchResult` | main.py:73 | A leftmost-shortest match of the pattern is exactly what `Search` returns, so the result is fixed by the pattern alone. |
| `ModDescriptor.FirstAssignmentWins` | main.py:73-75 | A descriptor that starts with a complete `path="v"` yields `v`, whatever follows it, including a second `path="..."`. |
| `ModDescriptor.ReplacePathComesFirst` | main.py:73-75 | The pattern also matches inside `replace_path="`, so a `replace_path` line before the `path` line supplies the mod path. |
| `ModDescriptor.NoMatchAcrossNewline` | main.py:73-77 | A newline between `path="` and the only closing quote means no match. |
| `ModDescriptor.Session.ExtractModPath` | main.py:70-77 | An error is shown exactly when no position matches, and then the mod path is unchanged. Otherwise the mod path becomes group 1 of the search result. |
| `Text.UpperIsPointwise` | main.py:114 | `upper()` maps each character on its own: ASCII lower-case letters become capitals, every other character is kept, and no ASCII lower-case letter remains. |
| `Text.LowerIsPointwise` | main.py:202 | `lower()` maps each character on its own: ASCII capitals become lower-case letters, every other character is kept, and no ASCII capital remains. |
| `Text.LowerOfUpper` | main.py:202 | Lower-casing an upper-cased or lower-cased string gives the same as lower-casing the original. |
| `Text.BeforeFirstIsPrefix` | main.py:201 | `split(c)[0]` is a prefix without `c`, and it is followed by `c` unless it is the whole string. |
| `Text.BeforeFirstOfSplit` | main.py:201 | `split(c)[0]` of `p + c + q`, where `p` holds no `c`, is `p`. |
| `Text.StripRemovesSpaces` | main.py:201 | `strip()` yields a piece `s[a..b]` where everything before `a` and from `b` on is whitespace, and the piece neither starts nor ends with whitespace. |
| `Text.ContainsMeansOccurs` | main.py:202 | `needle in hay` holds exactly when `needle` occurs at some index of `hay`. |
| `Country.Ancestors` | main.py:121-123 | The folders `makedirs(p)` creates contain `p` and the parent of each of them. |
| `Country.CreateCountrySpec` | main.py:113-137 | The outcome is "fields missing" exactly when the upper-cased tag or the name is empty. It is "unknown culture" exactly when both are present and the choice is not in the table. Otherwise the country is created. A rejected form leaves the disk unchanged. |
| `Country.MakeDirsKeepsWellFormed` | main.py:121-123 | `makedirs` keeps every file and folder inside an existing folder. |
| `Country.WriteKeepsWellFormed` | main.py:125-137 | Writing or appending to a file whose folder exists keeps the file system well formed. |
| `Country.WritesAfterTruncate` | main.py:125-128 | Opening in mode `"w"` and writing three pieces leaves exactly their concatenation, whatever was there before. |
| `Country.WriteAfterTruncate` | main.py:130-131 | Opening in mode `"w"` and writing once leaves exactly that text. |
| `Country.WriteAfterOpenAppend` | main.py:133-137 | Opening in mode `"a"` and writing once puts the text after the old content. |
| `Country.FileSystem.MakeDirs` | main.py:121-123 | The folders become the old folders plus the target and every folder above it. The files are unchanged. |
| `Country.FileSystem.OpenWrite` | main.py:125 | The file exists and is empty afterwards, whatever it held. Nothing else changes. |
| `Country.FileSystem.OpenAppend` | main.py:133 | The file exists afterwards with its old content, or empty if it was new. Nothing else changes. |
| `Country.FileSystem.Write` | main.py:126-128 | The text is added at the end of the open file. Nothing else changes. |
| `Country.CreateCountry` | main.py:113-137 | The callback's outcome and the resulting file system are exactly those of `CreateCountrySpec`, and the file system stays well formed. |
| `Country.GeneratedPathsDistinct` | main.py:125-136 | The four target files are pairwise distinct, except that the definition file is the colour registry exactly when the name is `colors`. |
| `Country.CreateWritesCountryFiles` | main.py:98-131 | After a creation the three folders exist and the history file holds exactly the two starter lines. The definition file holds exactly the table's 3D and 2D cultures for the choice and the colour; the name `colors` is the one exception. The tag used is the upper-cased input. |
| `Country.CreateAppendsRegistries` | main.py:133-137 | The tag registry becomes its old content plus the new line, with the upper-cased tag, or stays the same for a rejected form. The colour registry does the same except for the name `colors`. |
| `Country.CreateChangesNothingElse` | main.py:121-137 | Every other path keeps its existence and its content. The new folders are exactly the three targets and the folders above them. |
| `Country.ColorsNameClobbersRegistry` | main.py:125-134 | A country named `colors` ends with the colour registry holding its definition text followed by its colour line. The registry's earlier rows are lost. |
| `Country.CreateKeepsWellFormed` | main.py:121-137 | Creating a country from a well-formed file system leaves one. |
| `Country.TagRegistryRecordsEveryCountry` | main.py:136-137 | Over any series of presses, the tag registry is its old content followed by one row per created country, in order and without deduplication. |
| `Country.CreateTwiceDuplicatesRows` | main.py:125-137 | Creating the same country twice leaves the same definition and history files, and adds two identical rows to each registry. |
| `Localisation.CleanLineShape` | main.py:201 | A cleaned line is a slice of the line that holds no `#` and neither starts nor ends with whitespace. |
| `Localisation.CleanLineIdempotent` | main.py:201 | Cleaning a cleaned line changes nothing. |
| `Localisation.CommentIsDropped` | main.py:200-201 | The line `text # comment` is cleaned to `text` when `text` holds no `#` and has no surrounding whitespace. |
| `Localisation.ScanFile` | main.py:198-203 | The loop over the lines of a `.yml` file returns exactly `FileResults` for the query: its matching lines, numbered from 1, in order. |
| `Localisation.ScanFolder` | main.py:194-203 | The loop over the files of one folder reads only `.yml` files. It returns exactly `FolderResults`, the concatenation of the files' results in listing order. |
| `Localisation.SearchTree` | main.py:193-203 | The loop over the folders of the walk returns exactly `TreeResults`, the concatenation of the folders' results. |
| `Localisation.FindLocalizationId` | main.py:178-216 | The outcomes are: no mod selected exactly when the mod path is empty; cancelled exactly when the query is missing or empty; a crash on the unbound `loc_dir` exactly when a valid query meets an empty game path. Otherwise the search runs, and it reports its results exactly when there are some, or "no matches" when there are none. |
| `Localisation.LinesResultsMembers` | main.py:199-203 | Among the first `k` lines, a result is reported exactly when it names this file and a line `1..k` whose cleaned text is a hit, and it carries that text. |
| `Localisation.LinesResultsIncreasing` | main.py:199-203 | The line numbers of one file's results lie in `1..k` and strictly increase. |
| `Localisation.FileResultsMembers` | main.py:195-203 | A file's results are exactly its matching lines, and a file the criteria do not read gives none. |
| `Localisation.FilesResultsMembers` | main.py:194-203 | The results of the first `k` files are exactly the matching lines of those files. |
| `Localisation.WalkResultsMembers` | main.py:193-203 | The results of the first `k` folders are exactly the results of those folders. |
| `Localisation.SearchFindsExactlyTheMatchingLines` | main.py:193-203 | A result is reported exactly when it names a line of a `.yml` file of the walk whose cleaned text, lower-cased, contains the lower-cased query. Its text is that cleaned line. |
| `Localisation.FilesResultsInFileOrder` | main.py:194-203 | In a folder with distinct file names, the results of each file come out in increasing line order. |
| `Localisation.WalkResultsInFileOrder` | main.py:193-203 | Over distinct folders with distinct names, the results of each file come out in increasing line order. |
| `Localisation.SearchKeepsLineOrder` | main.py:193-203 | The whole search lists each file's results in increasing line order. |
| `Localisation.SearchIgnoresQueryCase` | main.py:202 | Searching for the upper-cased or the lower-cased query gives the same results as the query itself. |

## Left out

- The window, dialogs and message boxes are not modelled; their observable effects are outcome values (an error shown, a message chosen). This also leaves out the main window, the sliders, the colour preview's hex formatting (main.py:108-111) and the results window's text layout.
- The settings file (main.py:16-51) is not modelled. The game folder it yields is a parameter, and the empty string stands for a missing or unset entry.
- `open_country_creator` only opens the window after checking that a mod is selected (main.py:80-83). That check is GUI gating and is not modelled. `CreateCountry` takes the mod path as it is.
- File contents written by the country generator are the text passed to `f.write` (main.py:125-137). The UTF-8 encoding and text mode's newline translation (`\n` to `\r\n` on Windows) are not modelled. So `Country.WritesAfterTruncate`, `Country.CreateWritesCountryFiles` and `Country.CreateAppendsRegistries` state exact contents at the level of text, not bytes.
- File reading and decoding become inputs. The descriptor's text is a string. Each file's lines are a sequence, with each line's line break as Python's text mode delivers it.
- A file whose decoding fails part-way (main.py:204-205) contributes the lines read before the error. The results appended earlier stay. This is what the loop does, rather than treating such a file as empty.
- Directory traversal is an input list of folders, each with its files, in the order `os.walk` yields them. A missing folder is an empty walk, which leads to "no matches".
- `Localisation.SearchKeepsLineOrder`: it assumes what `os.walk` guarantees, namely distinct folders and distinct names in each folder.
- Paths are values built by `Root` and `Child`. `os.path.join`'s handling of separators, absolute components and names containing `/` is not modelled. Distinct names are distinct paths.
- Each result is the record (text, folder, file name, line number). The program formats it as the text `"{clean_line} — {file_path} (строка {i})"` and joins the results with newlines.
- `Text.UpperIsPointwise`, `Text.LowerIsPointwise`: case mapping is ASCII-only. Python's Unicode case mapping, including letters whose mapping changes the length, is not modelled.
- The colour is the string `"R G B"` the sliders produce (main.py:111); the sliders are not modelled.
- A failed `makedirs` or write after the first file operation, and the state it would leave, is not modelled. Each file operation succeeds.
- A country named `colors` writes its definition over the colour registry (main.py:125 and 133). It is modelled as written, and `Country.ColorsNameClobbersRegistry` states the result.
- A `replace_path="..."` line placed before the `path="..."` line supplies the mod path, because the pattern is not anchored (main.py:73). It is modelled as written, and `ModDescriptor.ReplacePathComesFirst` states the result.
- An empty game folder leaves `loc_dir` unassigned (main.py:190-193). The callback then raises. It is modelled as the outcome `LocDirUnbound`.
