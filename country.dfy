/** The country generator behind the "Создать страну" button: validation of the form, the
    fixed graphical-culture table, three `os.makedirs` calls, two files written in mode "w"
    and two registries written in mode "a", over a model of the file system. */
module Country {
  import opened Text

  /** A file-system path: the mod folder, or an entry inside a folder.
      `os.path.join(m, a, b)` is `Child(Child(Root(m), a), b)`. */
  datatype Path = Root(folder: string) | Child(parent: Path, name: string)

  /** The part of the file system the generator touches: file contents and existing folders. */
  datatype Disk = Disk(files: map<Path, string>, dirs: set<Path>)

  /** Every file lies in an existing folder, and the folder holding an existing folder exists. */
  ghost predicate WellFormed(d: Disk)
  {
    && (forall p :: p in d.files ==> p.Child? && p.parent in d.dirs)
    && (forall q :: q in d.dirs && q.Child? ==> q.parent in d.dirs)
  }

  /** The folders `os.makedirs(p)` makes sure exist: `p` and every folder above it. */
  function Ancestors(p: Path): (r: set<Path>)
    ensures p in r
    ensures forall q :: q in r && q.Child? ==> q.parent in r
  {
    match p
    case Root(_) => {p}
    case Child(parent, _) => Ancestors(parent) + {p}
  }

  /** What a read of `p` yields, the empty text for a file that does not exist. */
  function Content(files: map<Path, string>, p: Path): string
  {
    if p in files then files[p] else ""
  }

  /** `os.makedirs(p, exist_ok=True)`. */
  function MakeDirsOn(d: Disk, p: Path): Disk
  {
    d.(dirs := d.dirs + Ancestors(p))
  }

  /** `open(p, "w")` followed by writes of `text`: earlier content is discarded. */
  function OverwriteOn(d: Disk, p: Path, text: string): Disk
  {
    d.(files := d.files[p := text])
  }

  /** `open(p, "a")` followed by a write of `text`: the file is created when missing. */
  function AppendOn(d: Disk, p: Path, text: string): Disk
  {
    d.(files := d.files[p := Content(d.files, p) + text])
  }

  /** The culture choices of the combo box and the (3D, 2D) graphical cultures each stands for. */
  const GfxOptions: map<string, (string, string)> := map[
    "Восточно-Европейская" := ("eastern_european_gfx", "eastern_european_2d"),
    "Африканская" := ("african_gfx", "african_2d"),
    "Ближневосточная" := ("middle_eastern_gfx", "middle_eastern_2d"),
    "Азиатская" := ("asian_gfx", "asian_2d"),
    "Южноамериканская" := ("southamerican_gfx", "southamerican_2d"),
    "Британская" := ("commonwealth_gfx", "commonwealth_2d"),
    "Западно-Европейская" := ("western_european_gfx", "western_european_2d")
  ]

  /** The fields of the creation form. `tag` is as typed, before upper-casing; `color` is the
      text "R G B" the sliders maintain. */
  datatype Form = Form(tag: string, name: string, color: string, culture: string)

  datatype Outcome =
    | Created
    | FieldsMissing   // "Заполни все поля!" is shown
    | UnknownCulture  // `gfx_options[gfx_choice]` raises KeyError

  function CountriesDir(modPath: string): Path { Child(Child(Root(modPath), "common"), "countries") }
  function HistoryDir(modPath: string): Path { Child(Child(Root(modPath), "history"), "countries") }
  function TagsDir(modPath: string): Path { Child(Child(Root(modPath), "common"), "country_tags") }

  function DefinitionPath(modPath: string, name: string): Path { Child(CountriesDir(modPath), name + ".txt") }
  function HistoryPath(modPath: string, tag: string, name: string): Path { Child(HistoryDir(modPath), tag + " - " + name + ".txt") }
  function ColorsPath(modPath: string): Path { Child(CountriesDir(modPath), "colors.txt") }
  function TagsPath(modPath: string): Path { Child(TagsDir(modPath), "02_countries.txt") }

  /** The three lines of a country definition file, written one `f.write` each. */
  function CultureLine(gfx3d: string): string { "graphical_culture = " + gfx3d + "\n" }
  function Culture2dLine(gfx2d: string): string { "graphical_culture_2d = " + gfx2d + "\n" }
  function ColorField(color: string): string { "color = { " + color + " }\n" }

  function DefinitionText(gfx3d: string, gfx2d: string, color: string): string
  {
    CultureLine(gfx3d) + Culture2dLine(gfx2d) + ColorField(color)
  }

  const HistoryText: string := "capital = 1\nset_research_slots = 3\n"

  function ColorLine(tag: string, color: string): string
  {
    "\n" + tag + " = { color = rgb { " + color + " } color_ui = rgb { " + color + " } }\n"
  }

  function TagLine(tag: string, name: string): string
  {
    tag + " = \"countries/" + name + ".txt\"\n"
  }

  /** A form is created exactly when it passes validation and its culture is in the table. */
  predicate Accepted(f: Form)
  {
    f.tag != "" && f.name != "" && f.culture in GfxOptions
  }

  /** What one press of the button does to disk `d`. The form is rejected, with the disk
      untouched, when the tag or the name is empty, and otherwise when the culture is not in
      the table; every other form is created. */
  function CreateCountrySpec(d: Disk, modPath: string, f: Form): (r: (Outcome, Disk))
    ensures r.0 == FieldsMissing <==> f.tag == "" || f.name == ""
    ensures r.0 == UnknownCulture <==> f.tag != "" && f.name != "" && f.culture !in GfxOptions
    ensures r.0 == Created <==> Accepted(f)
    ensures r.0 != Created ==> r.1 == d
  {
    var tag := Upper(f.tag);
    if !(tag != "" && f.name != "") then (FieldsMissing, d)
    else if f.culture !in GfxOptions then (UnknownCulture, d)
    else (Created, WriteArtifacts(d, modPath, tag, f.name, f.color, GfxOptions[f.culture]))
  }

  /** The file operations of a created country, in the callback's order. */
  function WriteArtifacts(d: Disk, modPath: string, tag: string, name: string, color: string, gfx: (string, string)): Disk
  {
    var d1 := MakeDirsOn(MakeDirsOn(MakeDirsOn(d, CountriesDir(modPath)), HistoryDir(modPath)), TagsDir(modPath));
    var d2 := OverwriteOn(d1, DefinitionPath(modPath, name), DefinitionText(gfx.0, gfx.1, color));
    var d3 := OverwriteOn(d2, HistoryPath(modPath, tag, name), HistoryText);
    var d4 := AppendOn(d3, ColorsPath(modPath), ColorLine(tag, color));
    AppendOn(d4, TagsPath(modPath), TagLine(tag, name))
  }

  /** `os.makedirs` keeps the file system well formed. */
  lemma MakeDirsKeepsWellFormed(d: Disk, p: Path)
    requires WellFormed(d)
    ensures WellFormed(MakeDirsOn(d, p))
  {
  }

  /** Writing a file whose folder exists keeps the file system well formed. */
  lemma WriteKeepsWellFormed(d: Disk, p: Path, text: string)
    requires WellFormed(d) && p.Child? && p.parent in d.dirs
    ensures WellFormed(OverwriteOn(d, p, text)) && WellFormed(AppendOn(d, p, text))
  {
  }

  /** Opening in mode "w" and writing three pieces leaves exactly their concatenation. */
  lemma WritesAfterTruncate(d: Disk, p: Path, a: string, b: string, c: string)
    ensures AppendOn(AppendOn(AppendOn(OverwriteOn(d, p, ""), p, a), p, b), p, c) == OverwriteOn(d, p, a + b + c)
  {
    assert "" + a + b + c == a + b + c;
  }

  /** Opening in mode "w" and writing once leaves exactly what was written. */
  lemma WriteAfterTruncate(d: Disk, p: Path, a: string)
    ensures AppendOn(OverwriteOn(d, p, ""), p, a) == OverwriteOn(d, p, a)
  {
    assert "" + a == a;
  }

  /** Opening in mode "a" and writing once appends what was written. */
  lemma WriteAfterOpenAppend(d: Disk, p: Path, a: string)
    ensures AppendOn(AppendOn(d, p, ""), p, a) == AppendOn(d, p, a)
  {
    assert Content(d.files, p) + "" + a == Content(d.files, p) + a;
  }

  /** The mod's file system, updated in place by the generator's file operations. */
  class FileSystem {
    var files: map<Path, string>
    var dirs: set<Path>

    function State(): Disk
      reads this
    {
      Disk(files, dirs)
    }

    ghost predicate Valid()
      reads this
    {
      WellFormed(State())
    }

    constructor (d: Disk)
      requires WellFormed(d)
      ensures Valid() && State() == d
    {
      files, dirs := d.files, d.dirs;
    }

    /** `os.makedirs(p, exist_ok=True)`. */
    method MakeDirs(p: Path)
      requires Valid()
      modifies this
      ensures Valid() && State() == MakeDirsOn(old(State()), p)
    {
      MakeDirsKeepsWellFormed(State(), p);
      dirs := dirs + Ancestors(p);
    }

    /** `open(p, "w")`: creates the file, or empties it when it exists; its folder must exist. */
    method OpenWrite(p: Path)
      requires Valid() && p.Child? && p.parent in dirs
      modifies this
      ensures Valid() && State() == OverwriteOn(old(State()), p, "")
    {
      files := files[p := ""];
    }

    /** `open(p, "a")`: creates the file when missing and keeps its content otherwise. */
    method OpenAppend(p: Path)
      requires Valid() && p.Child? && p.parent in dirs
      modifies this
      ensures Valid() && State() == AppendOn(old(State()), p, "")
    {
      assert Content(files, p) + "" == Content(files, p);
      files := files[p := Content(files, p)];
    }

    /** `f.write(text)` on a file opened by one of the two methods above: `text` goes at its end. */
    method Write(p: Path, text: string)
      requires Valid() && p in files
      modifies this
      ensures Valid() && State() == AppendOn(old(State()), p, text)
    {
      files := files[p := files[p] + text];
    }
  }

  /** The `create_country` callback: read the form, validate it, look the culture up, then
      create the folders, write the two per-country files and append to the two registries. */
  method CreateCountry(fs: FileSystem, modPath: string, form: Form) returns (outcome: Outcome)
    requires fs.Valid()
    modifies fs
    ensures fs.Valid()
    ensures (outcome, fs.State()) == CreateCountrySpec(old(fs.State()), modPath, form)
  {
    var tag, name, color, choice := Upper(form.tag), form.name, form.color, form.culture;
    if !(tag != "" && name != "") {
      return FieldsMissing;
    }
    if choice !in GfxOptions {
      return UnknownCulture;
    }
    var gfx := GfxOptions[choice];
    ghost var d := fs.State();
    assert CreateCountrySpec(d, modPath, form).1 == WriteArtifacts(d, modPath, tag, name, color, gfx);
    fs.MakeDirs(CountriesDir(modPath));
    fs.MakeDirs(HistoryDir(modPath));
    fs.MakeDirs(TagsDir(modPath));

    d := fs.State();
    var definition := DefinitionPath(modPath, name);
    fs.OpenWrite(definition);
    fs.Write(definition, CultureLine(gfx.0));
    fs.Write(definition, Culture2dLine(gfx.1));
    fs.Write(definition, ColorField(color));
    WritesAfterTruncate(d, definition, CultureLine(gfx.0), Culture2dLine(gfx.1), ColorField(color));
    d := OverwriteOn(d, definition, DefinitionText(gfx.0, gfx.1, color));

    var history := HistoryPath(modPath, tag, name);
    fs.OpenWrite(history);
    fs.Write(history, HistoryText);
    WriteAfterTruncate(d, history, HistoryText);
    d := OverwriteOn(d, history, HistoryText);

    var colors := ColorsPath(modPath);
    fs.OpenAppend(colors);
    fs.Write(colors, ColorLine(tag, color));
    WriteAfterOpenAppend(d, colors, ColorLine(tag, color));
    d := AppendOn(d, colors, ColorLine(tag, color));

    var tags := TagsPath(modPath);
    fs.OpenAppend(tags);
    fs.Write(tags, TagLine(tag, name));
    WriteAfterOpenAppend(d, tags, TagLine(tag, name));
    outcome := Created;
  }

  /** The four files the generator writes are four different files, except that a country
      named "colors" has its definition file at the path of the colour registry. */
  lemma GeneratedPathsDistinct(modPath: string, tag: string, name: string)
    ensures DefinitionPath(modPath, name) != HistoryPath(modPath, tag, name)
    ensures DefinitionPath(modPath, name) != TagsPath(modPath)
    ensures HistoryPath(modPath, tag, name) != ColorsPath(modPath)
    ensures HistoryPath(modPath, tag, name) != TagsPath(modPath)
    ensures ColorsPath(modPath) != TagsPath(modPath)
    ensures DefinitionPath(modPath, name) == ColorsPath(modPath) <==> name == "colors"
  {
    if name + ".txt" == "colors.txt" {
      assert name == (name + ".txt")[..|name|];
    }
    if name == "colors" {
      assert name + ".txt" == "colors.txt";
    }
  }

  /** On success the three folders exist, the history file holds exactly the two starter lines
      and the definition file holds exactly the 3D culture and the 2D culture of the chosen
      table entry and the colour (unless the country is named "colors", see
      `ColorsNameClobbersRegistry`). Earlier content of both files is gone. */
  lemma CreateWritesCountryFiles(d: Disk, modPath: string, f: Form)
    requires Accepted(f)
    ensures var r := CreateCountrySpec(d, modPath, f);
      && CountriesDir(modPath) in r.1.dirs && HistoryDir(modPath) in r.1.dirs && TagsDir(modPath) in r.1.dirs
      && HistoryPath(modPath, Upper(f.tag), f.name) in r.1.files
      && r.1.files[HistoryPath(modPath, Upper(f.tag), f.name)] == HistoryText
      && DefinitionPath(modPath, f.name) in r.1.files
      && (f.name != "colors" ==>
            r.1.files[DefinitionPath(modPath, f.name)]
            == DefinitionText(GfxOptions[f.culture].0, GfxOptions[f.culture].1, f.color))
  {
    var tag := Upper(f.tag);
    assert CreateCountrySpec(d, modPath, f).1 == WriteArtifacts(d, modPath, tag, f.name, f.color, GfxOptions[f.culture]);
    GeneratedPathsDistinct(modPath, tag, f.name);
  }

  /** The two registries only grow: on success each gains its one line at the end, the tag of
      both lines being the upper-cased input; a rejected form leaves them as they were. */
  lemma CreateAppendsRegistries(d: Disk, modPath: string, f: Form)
    ensures var r := CreateCountrySpec(d, modPath, f);
      && Content(r.1.files, TagsPath(modPath))
         == Content(d.files, TagsPath(modPath)) + (if Accepted(f) then TagLine(Upper(f.tag), f.name) else "")
      && (f.name != "colors" ==>
            Content(r.1.files, ColorsPath(modPath))
            == Content(d.files, ColorsPath(modPath)) + (if Accepted(f) then ColorLine(Upper(f.tag), f.color) else ""))
  {
    var tag := Upper(f.tag);
    GeneratedPathsDistinct(modPath, tag, f.name);
    if Accepted(f) {
      assert CreateCountrySpec(d, modPath, f).1 == WriteArtifacts(d, modPath, tag, f.name, f.color, GfxOptions[f.culture]);
    } else {
      assert Content(d.files, TagsPath(modPath)) + "" == Content(d.files, TagsPath(modPath));
      assert Content(d.files, ColorsPath(modPath)) + "" == Content(d.files, ColorsPath(modPath));
    }
  }

  /** No file other than the four is created or changed, and the only new folders are the three
      `os.makedirs` targets and the folders above them. */
  lemma CreateChangesNothingElse(d: Disk, modPath: string, f: Form)
    ensures var r := CreateCountrySpec(d, modPath, f);
      && (forall p :: p != DefinitionPath(modPath, f.name) && p != HistoryPath(modPath, Upper(f.tag), f.name)
                      && p != ColorsPath(modPath) && p != TagsPath(modPath)
                      ==> (p in r.1.files <==> p in d.files) && Content(r.1.files, p) == Content(d.files, p))
      && r.1.dirs == d.dirs + (if Accepted(f)
                               then Ancestors(CountriesDir(modPath)) + Ancestors(HistoryDir(modPath)) + Ancestors(TagsDir(modPath))
                               else {})
  {
    if Accepted(f) {
      var tag := Upper(f.tag);
      assert CreateCountrySpec(d, modPath, f).1 == WriteArtifacts(d, modPath, tag, f.name, f.color, GfxOptions[f.culture]);
    }
  }

  /** A country named "colors" has its definition written over the colour registry, and the
      registry line is then appended to that definition: the registry's earlier rows are lost. */
  lemma ColorsNameClobbersRegistry(d: Disk, modPath: string, f: Form)
    requires Accepted(f) && f.name == "colors"
    ensures var r := CreateCountrySpec(d, modPath, f);
      ColorsPath(modPath) in r.1.files
      && r.1.files[ColorsPath(modPath)]
         == DefinitionText(GfxOptions[f.culture].0, GfxOptions[f.culture].1, f.color) + ColorLine(Upper(f.tag), f.color)
  {
    var tag := Upper(f.tag);
    assert CreateCountrySpec(d, modPath, f).1 == WriteArtifacts(d, modPath, tag, f.name, f.color, GfxOptions[f.culture]);
    GeneratedPathsDistinct(modPath, tag, f.name);
  }

  /** The generator keeps the file system well formed: each file is written after its folder
      has been created. */
  lemma CreateKeepsWellFormed(d: Disk, modPath: string, f: Form)
    requires WellFormed(d)
    ensures WellFormed(CreateCountrySpec(d, modPath, f).1)
  {
    if Accepted(f) {
      var tag := Upper(f.tag);
      var gfx := GfxOptions[f.culture];
      assert CreateCountrySpec(d, modPath, f).1 == WriteArtifacts(d, modPath, tag, f.name, f.color, gfx);
      var d1 := MakeDirsOn(MakeDirsOn(MakeDirsOn(d, CountriesDir(modPath)), HistoryDir(modPath)), TagsDir(modPath));
      MakeDirsKeepsWellFormed(d, CountriesDir(modPath));
      MakeDirsKeepsWellFormed(MakeDirsOn(d, CountriesDir(modPath)), HistoryDir(modPath));
      MakeDirsKeepsWellFormed(MakeDirsOn(MakeDirsOn(d, CountriesDir(modPath)), HistoryDir(modPath)), TagsDir(modPath));
      var d2 := OverwriteOn(d1, DefinitionPath(modPath, f.name), DefinitionText(gfx.0, gfx.1, f.color));
      WriteKeepsWellFormed(d1, DefinitionPath(modPath, f.name), DefinitionText(gfx.0, gfx.1, f.color));
      var d3 := OverwriteOn(d2, HistoryPath(modPath, tag, f.name), HistoryText);
      WriteKeepsWellFormed(d2, HistoryPath(modPath, tag, f.name), HistoryText);
      var d4 := AppendOn(d3, ColorsPath(modPath), ColorLine(tag, f.color));
      WriteKeepsWellFormed(d3, ColorsPath(modPath), ColorLine(tag, f.color));
      WriteKeepsWellFormed(d4, TagsPath(modPath), TagLine(tag, f.name));
    }
  }

  /** Presses of the button, one per form, from disk `d`. */
  function CreateAll(d: Disk, modPath: string, forms: seq<Form>): Disk
    decreases |forms|
  {
    if forms == [] then d else CreateAll(CreateCountrySpec(d, modPath, forms[0]).1, modPath, forms[1..])
  }

  /** The rows the tag registry gains from the forms, in order. */
  function TagRows(forms: seq<Form>): string
  {
    if forms == [] then ""
    else (if Accepted(forms[0]) then TagLine(Upper(forms[0].tag), forms[0].name) else "") + TagRows(forms[1..])
  }

  /** Over any series of presses the tag registry keeps its old content and gains one row per
      created country, in order, with no deduplication. */
  lemma {:induction false} TagRegistryRecordsEveryCountry(d: Disk, modPath: string, forms: seq<Form>)
    ensures Content(CreateAll(d, modPath, forms).files, TagsPath(modPath)) == Content(d.files, TagsPath(modPath)) + TagRows(forms)
    decreases |forms|
  {
    if forms == [] {
      assert Content(d.files, TagsPath(modPath)) + "" == Content(d.files, TagsPath(modPath));
    } else {
      var d1 := CreateCountrySpec(d, modPath, forms[0]).1;
      var row := if Accepted(forms[0]) then TagLine(Upper(forms[0].tag), forms[0].name) else "";
      CreateAppendsRegistries(d, modPath, forms[0]);
      TagRegistryRecordsEveryCountry(d1, modPath, forms[1..]);
      assert CreateAll(d, modPath, forms) == CreateAll(d1, modPath, forms[1..]);
      assert TagRows(forms) == row + TagRows(forms[1..]);
      var before := Content(d.files, TagsPath(modPath));
      assert (before + row) + TagRows(forms[1..]) == before + (row + TagRows(forms[1..]));
    }
  }

  /** Creating the same country twice rewrites the same definition and history files and adds
      two identical rows to each registry. */
  lemma CreateTwiceDuplicatesRows(d: Disk, modPath: string, f: Form)
    requires Accepted(f) && f.name != "colors"
    ensures var d1 := CreateCountrySpec(d, modPath, f).1;
            var d2 := CreateCountrySpec(d1, modPath, f).1;
      && DefinitionPath(modPath, f.name) in d1.files && DefinitionPath(modPath, f.name) in d2.files
      && d2.files[DefinitionPath(modPath, f.name)] == d1.files[DefinitionPath(modPath, f.name)]
      && HistoryPath(modPath, Upper(f.tag), f.name) in d1.files && HistoryPath(modPath, Upper(f.tag), f.name) in d2.files
      && d2.files[HistoryPath(modPath, Upper(f.tag), f.name)] == d1.files[HistoryPath(modPath, Upper(f.tag), f.name)]
      && Content(d2.files, TagsPath(modPath))
         == Content(d.files, TagsPath(modPath)) + TagLine(Upper(f.tag), f.name) + TagLine(Upper(f.tag), f.name)
      && Content(d2.files, ColorsPath(modPath))
         == Content(d.files, ColorsPath(modPath)) + ColorLine(Upper(f.tag), f.color) + ColorLine(Upper(f.tag), f.color)
  {
    var d1 := CreateCountrySpec(d, modPath, f).1;
    CreateWritesCountryFiles(d, modPath, f);
    CreateWritesCountryFiles(d1, modPath, f);
    CreateAppendsRegistries(d, modPath, f);
    CreateAppendsRegistries(d1, modPath, f);
  }
}
