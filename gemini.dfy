/** `Components/gemini_component.py`: where the Gemini API key comes from.
    `load_api_key` searches configuration files; `prompt_gemini` picks between an
    explicit key, those files and the environment, then asks the model.

    The files are a map from path to contents (`None`: the path exists but cannot be
    read). `json.load` and `ConfigParser.read` are outside the model: they are the
    oracles `parseJson` and `parseIni`, `None` meaning that they raised. The Gemini
    client is the oracle `generate`. */
module GeminiKeys {
  import opened Wrappers
  import opened Text
  import opened IniConfig

  /** A JSON value as far as the search can tell values apart: a string, an object,
      or anything else (number, boolean, null, array). */
  datatype Json = JStr(s: string) | JObj(fields: map<string, Json>) | JOther

  const DefaultFiles: seq<string> := [
    "Components/gemini_config.json", "api_config.json", "secrets.json",
    "config.ini", "api_config.ini", "api_key.txt"]

  const JsonKeys: seq<string> := ["api_key", "apiKey", "google_api_key", "gemini_api_key", "key"]
  const JsonSections: seq<string> := ["google", "gemini", "api"]
  const JsonSectionKeys: seq<string> := ["api_key", "apiKey", "key"]
  const IniSections: seq<string> := ["api", "google", "gemini", "credentials", "DEFAULT"]
  const IniKeys: seq<string> := ["api_key", "apiKey", "key", "google_api_key", "gemini_api_key"]

  const NotFoundMessage: string :=
    "No API key found. Please provide a config file or create one of: "
    + "Components/gemini_config.json, api_config.json, secrets.json, config.ini, api_config.ini, api_key.txt"
  const MissingKeyMessage: string :=
    "API key must be provided, set in a config file, or set as GOOGLE_API_KEY environment variable"

  // ---------------------------------------------------------------- JSON files

  /** The value of the first of `keys` that `m` holds. */
  function FirstKey(m: map<string, Json>, keys: seq<string>): Option<Json>
    decreases |keys|
  {
    if keys == [] then None
    else if keys[0] in m then Some(m[keys[0]])
    else FirstKey(m, keys[1..])
  }

  /** `keys[i]` is the first of `keys` that `m` holds. */
  predicate FirstHeldAt(m: map<string, Json>, keys: seq<string>, i: int) {
    0 <= i < |keys| && keys[i] in m && forall j :: 0 <= j < i ==> keys[j] !in m
  }

  /** `FirstKey` finds the value of the earliest key present, and nothing when no key is. */
  lemma {:induction false} FirstKeyIff(m: map<string, Json>, keys: seq<string>)
    ensures FirstKey(m, keys).None? <==> forall j :: 0 <= j < |keys| ==> keys[j] !in m
    ensures forall i :: FirstHeldAt(m, keys, i) ==> FirstKey(m, keys) == Some(m[keys[i]])
    decreases |keys|
  {
    if keys != [] {
      FirstKeyIff(m, keys[1..]);
      forall i | FirstHeldAt(m, keys, i)
        ensures FirstKey(m, keys) == Some(m[keys[i]])
      {
        if i > 0 {
          assert FirstHeldAt(m, keys[1..], i - 1);
        }
      }
      if keys[0] !in m {
        forall j | 0 <= j < |keys[1..]|
          ensures keys[j + 1] == keys[1..][j]
        {
        }
      }
    }
  }

  /** The nested search: the first of `sections` that is an object holding one of
      `JsonSectionKeys`. A section that is not an object is passed over. */
  function SectionKey(fields: map<string, Json>, sections: seq<string>): Option<Json>
    decreases |sections|
  {
    if sections == [] then None
    else
      var s := sections[0];
      if s in fields && fields[s].JObj? && FirstKey(fields[s].fields, JsonSectionKeys).Some?
      then FirstKey(fields[s].fields, JsonSectionKeys)
      else SectionKey(fields, sections[1..])
  }

  /** Section `s` is an object holding one of `JsonSectionKeys`. */
  predicate HoldsSectionKey(fields: map<string, Json>, s: string) {
    s in fields && fields[s].JObj? && FirstKey(fields[s].fields, JsonSectionKeys).Some?
  }

  /** `sections[i]` is the first of `sections` that is an object holding a key name. */
  predicate FirstKeySectionAt(fields: map<string, Json>, sections: seq<string>, i: int) {
    0 <= i < |sections| && HoldsSectionKey(fields, sections[i])
    && forall j :: 0 <= j < i ==> !HoldsSectionKey(fields, sections[j])
  }

  /** `SectionKey` finds the first key name of the earliest object section holding one,
      and nothing when no section does. */
  lemma {:induction false} SectionKeyIff(fields: map<string, Json>, sections: seq<string>)
    ensures SectionKey(fields, sections).None? <==>
      forall j :: 0 <= j < |sections| ==> !HoldsSectionKey(fields, sections[j])
    ensures forall i :: FirstKeySectionAt(fields, sections, i) ==>
      SectionKey(fields, sections) == FirstKey(fields[sections[i]].fields, JsonSectionKeys)
    decreases |sections|
  {
    if sections != [] {
      SectionKeyIff(fields, sections[1..]);
      forall i | FirstKeySectionAt(fields, sections, i)
        ensures SectionKey(fields, sections) == FirstKey(fields[sections[i]].fields, JsonSectionKeys)
      {
        if i > 0 {
          assert FirstKeySectionAt(fields, sections[1..], i - 1);
        }
      }
      if !HoldsSectionKey(fields, sections[0]) {
        forall j | 0 <= j < |sections[1..]|
          ensures sections[j + 1] == sections[1..][j]
        {
        }
      }
    }
  }

  /** The key a parsed JSON file yields: a top-level key first, then a nested one.
      A document whose top level is not an object yields nothing (in the source every
      such document either raises inside the search or matches nothing, and both move
      on to the next file). */
  function JsonKey(data: Json): Option<Json> {
    match data
    case JObj(fields) =>
      if FirstKey(fields, JsonKeys).Some? then FirstKey(fields, JsonKeys)
      else SectionKey(fields, JsonSections)
    case _ => None
  }

  /** A top-level key always beats a nested one. */
  lemma TopLevelKeyWins(fields: map<string, Json>, i: int)
    requires FirstHeldAt(fields, JsonKeys, i)
    ensures JsonKey(JObj(fields)) == Some(fields[JsonKeys[i]])
  {
    FirstKeyIff(fields, JsonKeys);
  }

  /** A nested key is used only when no top-level key is present. */
  lemma NestedKeyNeedsNoTopLevelKey(fields: map<string, Json>)
    requires JsonKey(JObj(fields)) != FirstKey(fields, JsonKeys)
    ensures forall j :: 0 <= j < |JsonKeys| ==> JsonKeys[j] !in fields
  {
    FirstKeyIff(fields, JsonKeys);
  }

  /** The loops of the JSON branch of `load_api_key`. */
  method JsonFileKey(data: Json) returns (r: Option<Json>)
    ensures r == JsonKey(data)
  {
    if !data.JObj? {
      return None;
    }
    var fields := data.fields;
    for i := 0 to |JsonKeys|
      invariant FirstKey(fields, JsonKeys) == FirstKey(fields, JsonKeys[i..])
    {
      assert JsonKeys[i..][1..] == JsonKeys[i + 1..];
      if JsonKeys[i] in fields {
        return Some(fields[JsonKeys[i]]);
      }
    }
    assert JsonKeys[|JsonKeys|..] == [];
    for s := 0 to |JsonSections|
      invariant SectionKey(fields, JsonSections) == SectionKey(fields, JsonSections[s..])
    {
      assert JsonSections[s..][1..] == JsonSections[s + 1..];
      var section := JsonSections[s];
      if section in fields && fields[section].JObj? {
        var inner := fields[section].fields;
        for k := 0 to |JsonSectionKeys|
          invariant FirstKey(inner, JsonSectionKeys) == FirstKey(inner, JsonSectionKeys[k..])
        {
          assert JsonSectionKeys[k..][1..] == JsonSectionKeys[k + 1..];
          if JsonSectionKeys[k] in inner {
            return Some(inner[JsonSectionKeys[k]]);
          }
        }
        assert JsonSectionKeys[|JsonSectionKeys|..] == [];
      }
    }
    assert JsonSections[|JsonSections|..] == [];
    return None;
  }

  // ---------------------------------------------------------------- INI files

  /** `config[section][key]` for the first of `keys` that `section` holds, inherited
      defaults included: the interpolated value or the interpolation error. Only that
      first key is read; a failure does not move on to the next key. */
  function IniOptionKey(ini: Ini, section: string, keys: seq<string>): Option<Outcome<string>>
    decreases |keys|
  {
    if keys == [] then None
    else if HasOption(ini, section, keys[0]) then Some(Get(ini, section, keys[0]))
    else IniOptionKey(ini, section, keys[1..])
  }

  /** `keys[i]` is the first of `keys` that `section` holds. */
  predicate FirstOptionAt(ini: Ini, section: string, keys: seq<string>, i: int) {
    0 <= i < |keys| && HasOption(ini, section, keys[i])
    && forall j :: 0 <= j < i ==> !HasOption(ini, section, keys[j])
  }

  /** `IniOptionKey` reads the earliest key the section holds, and nothing when it holds
      none of them. */
  lemma {:induction false} IniOptionKeyIff(ini: Ini, section: string, keys: seq<string>)
    ensures IniOptionKey(ini, section, keys).None? <==> forall j :: 0 <= j < |keys| ==> !HasOption(ini, section, keys[j])
    ensures forall i :: FirstOptionAt(ini, section, keys, i) ==> IniOptionKey(ini, section, keys) == Some(Get(ini, section, keys[i]))
    decreases |keys|
  {
    if keys != [] {
      IniOptionKeyIff(ini, section, keys[1..]);
      forall i | FirstOptionAt(ini, section, keys, i)
        ensures IniOptionKey(ini, section, keys) == Some(Get(ini, section, keys[i]))
      {
        if i > 0 {
          assert FirstOptionAt(ini, section, keys[1..], i - 1);
        }
      }
      if !HasOption(ini, section, keys[0]) {
        forall j | 0 <= j < |keys[1..]|
          ensures keys[j + 1] == keys[1..][j]
        {
        }
      }
    }
  }

  /** The first of `sections` present and holding one of `keys`, and what reading that
      key gives. */
  function IniSectionKey(ini: Ini, sections: seq<string>, keys: seq<string>): Option<Outcome<string>>
    decreases |sections|
  {
    if sections == [] then None
    else if HasSection(ini, sections[0]) && IniOptionKey(ini, sections[0], keys).Some?
    then IniOptionKey(ini, sections[0], keys)
    else IniSectionKey(ini, sections[1..], keys)
  }

  /** `sections[i]` is the first of `sections` present and holding one of `keys`. */
  predicate FirstSectionAt(ini: Ini, sections: seq<string>, keys: seq<string>, i: int) {
    0 <= i < |sections| && HasSection(ini, sections[i]) && IniOptionKey(ini, sections[i], keys).Some?
    && forall j :: 0 <= j < i ==> !HasSection(ini, sections[j]) || IniOptionKey(ini, sections[j], keys).None?
  }

  /** `IniSectionKey` reads in the earliest section that is present and holds a key, and
      nothing when no section does. */
  lemma {:induction false} IniSectionKeyIff(ini: Ini, sections: seq<string>, keys: seq<string>)
    ensures IniSectionKey(ini, sections, keys).None? <==>
      forall j :: 0 <= j < |sections| ==> !HasSection(ini, sections[j]) || IniOptionKey(ini, sections[j], keys).None?
    ensures forall i :: FirstSectionAt(ini, sections, keys, i) ==>
      IniSectionKey(ini, sections, keys) == IniOptionKey(ini, sections[i], keys)
    decreases |sections|
  {
    if sections != [] {
      IniSectionKeyIff(ini, sections[1..], keys);
      forall i | FirstSectionAt(ini, sections, keys, i)
        ensures IniSectionKey(ini, sections, keys) == IniOptionKey(ini, sections[i], keys)
      {
        if i > 0 {
          assert FirstSectionAt(ini, sections[1..], keys, i - 1);
        }
      }
      if !(HasSection(ini, sections[0]) && IniOptionKey(ini, sections[0], keys).Some?) {
        forall j | 0 <= j < |sections[1..]|
          ensures sections[j + 1] == sections[1..][j]
        {
        }
      }
    }
  }

  /** What the INI branch reads from a parsed file. */
  function IniKey(ini: Ini): Option<Outcome<string>> {
    IniSectionKey(ini, IniSections, IniKeys)
  }

  /** Options of `DEFAULT` are inherited, so a key set only there is read already in
      the first section searched, `api`, when that section exists; a value without `%`
      comes back as it is. */
  lemma DefaultInheritedByApiSection(ini: Ini, v: string)
    requires "api" in ini.sections && "api_key" !in ini.sections["api"]
    requires "api_key" in ini.defaults && ini.defaults["api_key"] == v
    ensures HasOption(ini, "api", "api_key") && RawGet(ini, "api", "api_key") == v
    ensures IniKey(ini) == Some(Get(ini, "api", "api_key"))
    ensures '%' !in v ==> IniKey(ini) == Some(Returned(v))
  {
    assert Lower("api_key") == "api_key";
    assert HasOption(ini, "api", IniKeys[0]);
  }

  /** The inner loop of the INI branch: the keys of one section, in order. */
  method IniOptionSearch(ini: Ini, section: string, keys: seq<string>) returns (r: Option<Outcome<string>>)
    ensures r == IniOptionKey(ini, section, keys)
  {
    for k := 0 to |keys|
      invariant IniOptionKey(ini, section, keys) == IniOptionKey(ini, section, keys[k..])
    {
      assert keys[k..][1..] == keys[k + 1..];
      if HasOption(ini, section, keys[k]) {
        return Some(Get(ini, section, keys[k]));
      }
    }
    assert keys[|keys|..] == [];
    return None;
  }

  /** The outer loop of the INI branch: the sections, in order. */
  method IniSectionSearch(ini: Ini, sections: seq<string>, keys: seq<string>) returns (r: Option<Outcome<string>>)
    ensures r == IniSectionKey(ini, sections, keys)
  {
    for s := 0 to |sections|
      invariant IniSectionKey(ini, sections, keys) == IniSectionKey(ini, sections[s..], keys)
    {
      assert sections[s..][1..] == sections[s + 1..];
      if HasSection(ini, sections[s]) {
        var found := IniOptionSearch(ini, sections[s], keys);
        if found.Some? {
          return found;
        }
      }
    }
    assert sections[|sections|..] == [];
    return None;
  }

  // ---------------------------------------------------------------- file search

  /** The text after the last `c` in `s`, or all of `s` when there is none. */
  function AfterLast(s: string, c: char): (r: string)
    ensures |r| <= |s|
    ensures c !in r
    decreases |s|
  {
    if s == [] then []
    else if s[|s| - 1] == c then []
    else AfterLast(s[..|s| - 1], c) + [s[|s| - 1]]
  }

  /** `Path(path).suffix`: from the last dot of the final component, when that dot is
      neither its first nor its last character. */
  function Suffix(path: string): string
  {
    var name := AfterLast(path, '/');
    var ext := AfterLast(name, '.');
    var dot := |name| - |ext| - 1;
    if 0 < dot < |name| - 1 then name[dot..] else ""
  }

  lemma {:induction false} AfterLastNone(s: string, c: char)
    requires c !in s
    ensures AfterLast(s, c) == s
    decreases |s|
  {
    if s != [] {
      assert c !in s[..|s| - 1];
      AfterLastNone(s[..|s| - 1], c);
      assert s[..|s| - 1] + [s[|s| - 1]] == s;
    }
  }

  lemma {:induction false} AfterLastSplit(a: string, c: char, b: string)
    requires c !in b
    ensures AfterLast(a + [c] + b, c) == b
    decreases |b|
  {
    var s := a + [c] + b;
    if b == [] {
    } else {
      assert s[..|s| - 1] == a + [c] + b[..|b| - 1];
      assert c !in b[..|b| - 1];
      AfterLastSplit(a, c, b[..|b| - 1]);
      assert b[..|b| - 1] + [b[|b| - 1]] == b;
    }
  }

  /** The final component of `dir/name` is `name`. */
  lemma FinalComponent(dir: string, name: string)
    requires dir == [] || dir[|dir| - 1] == '/'
    requires '/' !in name
    ensures AfterLast(dir + name, '/') == name
  {
    if dir == [] {
      assert dir + name == name;
      AfterLastNone(name, '/');
    } else {
      assert dir + name == dir[..|dir| - 1] + ['/'] + name;
      AfterLastSplit(dir[..|dir| - 1], '/', name);
    }
  }

  /** The suffix of `dir/stem.ext` is `.ext`. */
  lemma SuffixOfName(dir: string, stem: string, ext: string)
    requires dir == [] || dir[|dir| - 1] == '/'
    requires stem != [] && ext != []
    requires '/' !in stem && '/' !in ext && '.' !in ext
    ensures Suffix(dir + (stem + ['.'] + ext)) == ['.'] + ext
  {
    var name := stem + ['.'] + ext;
    var path := dir + name;
    assert forall i :: 0 <= i < |name| ==> name[i] != '/';
    FinalComponent(dir, name);
    var n := AfterLast(path, '/');
    assert n == name;
    AfterLastSplit(stem, '.', ext);
    var e := AfterLast(n, '.');
    assert e == ext;
    var dot := |n| - |e| - 1;
    assert dot == |stem|;
    assert n[dot..] == ['.'] + ext;
  }

  /** The lower-cased suffix of `dir/stem.ext`, when `ext` is already lower case. */
  lemma LowerSuffixOfName(path: string, dir: string, stem: string, ext: string)
    requires path == dir + (stem + ['.'] + ext)
    requires dir == [] || dir[|dir| - 1] == '/'
    requires stem != [] && ext != []
    requires '/' !in stem && '/' !in ext && '.' !in ext
    requires IsLower(ext)
    ensures Lower(Suffix(path)) == ['.'] + ext
  {
    SuffixOfName(dir, stem, ext);
    LowerOfLower(['.'] + ext);
  }

  lemma GeminiConfigIsJson()
    ensures Lower(Suffix(DefaultFiles[0])) == ".json"
  {
    assert ['.'] + "json" == ".json";
    assert DefaultFiles[0] == "Components/" + ("gemini_config" + ['.'] + "json");
    LowerSuffixOfName(DefaultFiles[0], "Components/", "gemini_config", "json");
  }

  lemma ApiConfigJsonIsJson()
    ensures Lower(Suffix(DefaultFiles[1])) == ".json"
  {
    assert ['.'] + "json" == ".json";
    LowerSuffixOfName(DefaultFiles[1], "", "api_config", "json");
  }

  lemma SecretsIsJson()
    ensures Lower(Suffix(DefaultFiles[2])) == ".json"
  {
    assert ['.'] + "json" == ".json";
    LowerSuffixOfName(DefaultFiles[2], "", "secrets", "json");
  }

  lemma ConfigIniIsIni()
    ensures Lower(Suffix(DefaultFiles[3])) == ".ini"
  {
    assert ['.'] + "ini" == ".ini";
    LowerSuffixOfName(DefaultFiles[3], "", "config", "ini");
  }

  lemma ApiConfigIniIsIni()
    ensures Lower(Suffix(DefaultFiles[4])) == ".ini"
  {
    assert ['.'] + "ini" == ".ini";
    LowerSuffixOfName(DefaultFiles[4], "", "api_config", "ini");
  }

  lemma ApiKeyTxtIsText()
    ensures Lower(Suffix(DefaultFiles[5])) == ".txt"
  {
    assert ['.'] + "txt" == ".txt";
    LowerSuffixOfName(DefaultFiles[5], "", "api_key", "txt");
  }

  /** The default file names dispatch as their names say: three JSON files, two INI
      files and one plain-text file. (One lemma per file keeps each proof small.) */
  lemma DefaultSuffixes()
    ensures Lower(Suffix(DefaultFiles[0])) == ".json" && Lower(Suffix(DefaultFiles[1])) == ".json"
    ensures Lower(Suffix(DefaultFiles[2])) == ".json"
    ensures Lower(Suffix(DefaultFiles[3])) == ".ini" && Lower(Suffix(DefaultFiles[4])) == ".ini"
    ensures Lower(Suffix(DefaultFiles[5])) == ".txt"
  {
    GeminiConfigIsJson();
    ApiConfigJsonIsJson();
    SecretsIsJson();
    ConfigIniIsIni();
    ApiConfigIniIsIni();
    ApiKeyTxtIsText();
  }

  /** What one file yields, by the lower-cased suffix of its name: JSON, INI, or the
      whole stripped text when it is not empty. A missing file, an unreadable one, one
      that does not parse and an INI file whose key fails to interpolate yield nothing:
      the exception is caught and the search moves on. */
  function FileKey(path: string, fs: map<string, Option<string>>,
                   parseJson: string -> Option<Json>, parseIni: string -> Option<Ini>): Option<Json>
  {
    if path !in fs || fs[path].None? then None
    else
      var text := fs[path].value;
      var suffix := Lower(Suffix(path));
      if suffix == ".json" then
        (match parseJson(text) case None => None case Some(data) => JsonKey(data))
      else if suffix == ".ini" then
        (match parseIni(text)
         case None => None
         case Some(ini) =>
           match IniKey(ini)
           case Some(Returned(v)) => Some(JStr(v))
           case _ => None)
      else if Strip(text) != "" then Some(JStr(Strip(text)))
      else None
  }

  /** An INI file yields the value of the first option found, searching the sections
      and then the keys in order, when it reads without error, and nothing when reading
      it raises: the search then moves on to the next file. */
  lemma IniFileKey(path: string, fs: map<string, Option<string>>,
                   parseJson: string -> Option<Json>, parseIni: string -> Option<Ini>, ini: Ini, i: int, k: int)
    requires path in fs && fs[path].Some? && Lower(Suffix(path)) == ".ini"
    requires parseIni(fs[path].value) == Some(ini)
    requires FirstSectionAt(ini, IniSections, IniKeys, i) && FirstOptionAt(ini, IniSections[i], IniKeys, k)
    ensures FileKey(path, fs, parseJson, parseIni)
      == match Get(ini, IniSections[i], IniKeys[k]) case Returned(v) => Some(JStr(v)) case Raised(_) => None
  {
    IniSectionKeyIff(ini, IniSections, IniKeys);
    IniOptionKeyIff(ini, IniSections[i], IniKeys);
  }

  /** An INI file in which no searched section holds a searched key yields nothing. */
  lemma IniFileWithoutKey(path: string, fs: map<string, Option<string>>,
                          parseJson: string -> Option<Json>, parseIni: string -> Option<Ini>, ini: Ini)
    requires path in fs && fs[path].Some? && Lower(Suffix(path)) == ".ini"
    requires parseIni(fs[path].value) == Some(ini)
    requires forall j :: 0 <= j < |IniSections| ==> !HasSection(ini, IniSections[j]) || IniOptionKey(ini, IniSections[j], IniKeys).None?
    ensures FileKey(path, fs, parseJson, parseIni).None?
  {
    IniSectionKeyIff(ini, IniSections, IniKeys);
  }

  /** `FileKey` for the given files and parsers, as a function of the path. */
  function Yield(fs: map<string, Option<string>>, parseJson: string -> Option<Json>,
                 parseIni: string -> Option<Ini>): string -> Option<Json>
  {
    path => FileKey(path, fs, parseJson, parseIni)
  }

  /** What the first of `files` that yields something yields. */
  function FirstYield(files: seq<string>, yieldOf: string -> Option<Json>): Option<Json>
    decreases |files|
  {
    if files == [] then None
    else if yieldOf(files[0]).Some? then yieldOf(files[0])
    else FirstYield(files[1..], yieldOf)
  }

  /** The key of the first file of `files` that yields one. */
  function SearchFiles(files: seq<string>, fs: map<string, Option<string>>,
                       parseJson: string -> Option<Json>, parseIni: string -> Option<Ini>): Option<Json>
  {
    FirstYield(files, Yield(fs, parseJson, parseIni))
  }

  /** `FirstYield` returns what the first file that yields something yields, and every
      file before it yields nothing; it fails only when no file yields anything. */
  lemma {:induction false} FirstYieldWins(files: seq<string>, yieldOf: string -> Option<Json>)
    ensures FirstYield(files, yieldOf).None? <==> forall j :: 0 <= j < |files| ==> yieldOf(files[j]).None?
    ensures FirstYield(files, yieldOf).Some? ==>
      exists i :: 0 <= i < |files| && FirstYield(files, yieldOf) == yieldOf(files[i])
        && forall j :: 0 <= j < i ==> yieldOf(files[j]).None?
    decreases |files|
  {
    if files != [] {
      FirstYieldWins(files[1..], yieldOf);
      var r := FirstYield(files, yieldOf);
      if yieldOf(files[0]).None? {
        forall j | 0 <= j < |files[1..]|
          ensures files[1..][j] == files[j + 1]
        {
        }
        if r.Some? {
          var i :| 0 <= i < |files[1..]| && r == yieldOf(files[1..][i])
            && forall j :: 0 <= j < i ==> yieldOf(files[1..][j]).None?;
          assert r == yieldOf(files[i + 1]);
          forall j | 0 <= j < i + 1
            ensures yieldOf(files[j]).None?
          {
            if j > 0 {
              assert files[j] == files[1..][j - 1];
            }
          }
        }
      } else {
        assert r == yieldOf(files[0]);
      }
    }
  }

  /** The search returns the key of the first file that yields one, and every file
      before it yields nothing; it fails only when no file yields a key. */
  lemma SearchFilesFirstWins(files: seq<string>, fs: map<string, Option<string>>,
                             parseJson: string -> Option<Json>, parseIni: string -> Option<Ini>)
    ensures SearchFiles(files, fs, parseJson, parseIni).None?
            <==> forall j :: 0 <= j < |files| ==> FileKey(files[j], fs, parseJson, parseIni).None?
    ensures SearchFiles(files, fs, parseJson, parseIni).Some? ==>
      exists i :: 0 <= i < |files| && SearchFiles(files, fs, parseJson, parseIni) == FileKey(files[i], fs, parseJson, parseIni)
        && forall j :: 0 <= j < i ==> FileKey(files[j], fs, parseJson, parseIni).None?
  {
    var y := Yield(fs, parseJson, parseIni);
    FirstYieldWins(files, y);
    assert forall j :: 0 <= j < |files| ==> y(files[j]) == FileKey(files[j], fs, parseJson, parseIni);
  }

  /** An explicit, non-empty `config_file` replaces the default list entirely. */
  function FilesToTry(configFile: Option<string>): (files: seq<string>)
    ensures configFile.Some? && configFile.value != "" ==> files == [configFile.value]
    ensures configFile.None? || configFile.value == "" ==> files == DefaultFiles
  {
    if configFile.Some? && configFile.value != "" then [configFile.value] else DefaultFiles
  }

  /** What `load_api_key` returns or raises. */
  function LoadApiKeySpec(configFile: Option<string>, fs: map<string, Option<string>>,
                          parseJson: string -> Option<Json>, parseIni: string -> Option<Ini>): Outcome<Json>
  {
    match SearchFiles(FilesToTry(configFile), fs, parseJson, parseIni)
    case Some(key) => Returned(key)
    case None => Raised(NotFoundMessage)
  }

  /** With an explicit file, only that file counts: no default file is consulted. */
  lemma ExplicitFileOnly(path: string, fs: map<string, Option<string>>,
                         parseJson: string -> Option<Json>, parseIni: string -> Option<Ini>)
    requires path != ""
    ensures LoadApiKeySpec(Some(path), fs, parseJson, parseIni)
         == (match FileKey(path, fs, parseJson, parseIni)
             case Some(key) => Returned(key)
             case None => Raised(NotFoundMessage))
  {
    assert FilesToTry(Some(path)) == [path];
    assert [path][1..] == [];
    assert SearchFiles([path][1..], fs, parseJson, parseIni) == None;
  }

  /** The body of the file loop of `load_api_key`, for one file. */
  method ReadFileKey(path: string, fs: map<string, Option<string>>,
                     parseJson: string -> Option<Json>, parseIni: string -> Option<Ini>) returns (found: Option<Json>)
    ensures found == FileKey(path, fs, parseJson, parseIni)
  {
    if path !in fs || fs[path].None? {
      return None;
    }
    var text := fs[path].value;
    var suffix := Lower(Suffix(path));
    found := None;
    if suffix == ".json" {
      var parsed := parseJson(text);
      if parsed.Some? {
        found := JsonFileKey(parsed.value);
      }
    } else if suffix == ".ini" {
      var parsed := parseIni(text);
      if parsed.Some? {
        var key := IniSectionSearch(parsed.value, IniSections, IniKeys);
        if key.Some? && key.value.Returned? {
          found := Some(JStr(key.value.value));
        }
      }
    } else {
      var key := Strip(text);
      if key != "" {
        found := Some(JStr(key));
      }
    }
  }

  /** `load_api_key`: try each file in order and return the first key found; a file
      that is missing, unreadable, unparsable or keyless moves the search on. */
  method LoadApiKey(configFile: Option<string>, fs: map<string, Option<string>>,
                    parseJson: string -> Option<Json>, parseIni: string -> Option<Ini>) returns (r: Outcome<Json>)
    ensures r == LoadApiKeySpec(configFile, fs, parseJson, parseIni)
  {
    var files := FilesToTry(configFile);
    for i := 0 to |files|
      invariant SearchFiles(files, fs, parseJson, parseIni) == SearchFiles(files[i..], fs, parseJson, parseIni)
    {
      assert files[i..][1..] == files[i + 1..];
      var found := ReadFileKey(files[i], fs, parseJson, parseIni);
      if found.Some? {
        return Returned(found.value);
      }
    }
    assert files[|files|..] == [];
    return Raised(NotFoundMessage);
  }

  // ---------------------------------------------------------------- prompt_gemini

  /** The key `prompt_gemini` uses: a non-empty explicit key; otherwise what
      `load_api_key` finds; when that raises `FileNotFoundError`, a non-empty
      `GOOGLE_API_KEY`; otherwise a `ValueError`. The ensures follow this priority
      chain case by case; `KeyHasASource` states what it means independently. */
  function ChooseApiKey(apiKey: Option<string>, loaded: Outcome<Json>, envKey: Option<string>): (r: Outcome<Json>)
    ensures apiKey.Some? && apiKey.value != "" ==> r == Returned(JStr(apiKey.value))
    ensures (apiKey.None? || apiKey.value == "") && loaded.Returned? ==> r == loaded
    ensures (apiKey.None? || apiKey.value == "") && loaded.Raised? ==>
      r == if envKey.Some? && envKey.value != "" then Returned(JStr(envKey.value)) else Raised(MissingKeyMessage)
  {
    if apiKey.Some? && apiKey.value != "" then Returned(JStr(apiKey.value))
    else if loaded.Returned? then loaded
    else if envKey.Some? && envKey.value != "" then Returned(JStr(envKey.value))
    else Raised(MissingKeyMessage)
  }

  /** Every key `ChooseApiKey` settles on comes from one of its three sources, and it
      fails only when all three are empty. */
  lemma KeyHasASource(apiKey: Option<string>, loaded: Outcome<Json>, envKey: Option<string>)
    ensures ChooseApiKey(apiKey, loaded, envKey).Raised? <==>
      (apiKey.None? || apiKey.value == "") && loaded.Raised? && (envKey.None? || envKey.value == "")
    ensures ChooseApiKey(apiKey, loaded, envKey).Returned? ==>
      ChooseApiKey(apiKey, loaded, envKey) in
        {loaded} + (if apiKey.Some? then {Returned(JStr(apiKey.value))} else {})
                 + (if envKey.Some? then {Returned(JStr(envKey.value))} else {})
  {
  }

  /** `prompt_gemini(prompt, config_file, api_key)`: choose the key, then send the
      prompt; a failure of the model call is re-raised with a fixed prefix. The float
      generation settings are not modelled. A thin wrapper: its ensures list the
      source's outcomes one by one, and the key it uses is described by `ChooseApiKey`
      and `KeyHasASource`. */
  function PromptGemini(prompt: string, configFile: Option<string>, apiKey: Option<string>,
                        fs: map<string, Option<string>>, env: map<string, string>,
                        parseJson: string -> Option<Json>, parseIni: string -> Option<Ini>,
                        generate: (Json, string) -> Outcome<string>): (r: Outcome<string>)
    ensures
      var key := ChooseApiKey(apiKey, LoadApiKeySpec(configFile, fs, parseJson, parseIni),
                              if "GOOGLE_API_KEY" in env then Some(env["GOOGLE_API_KEY"]) else None);
      && (key.Raised? ==> r == Raised(key.error))
      && (key.Returned? && generate(key.value, prompt).Returned? ==> r == generate(key.value, prompt))
      && (key.Returned? && generate(key.value, prompt).Raised? ==>
            r == Raised("Error calling Gemini API: " + generate(key.value, prompt).error))
  {
    var envKey := if "GOOGLE_API_KEY" in env then Some(env["GOOGLE_API_KEY"]) else None;
    match ChooseApiKey(apiKey, LoadApiKeySpec(configFile, fs, parseJson, parseIni), envKey)
    case Raised(e) => Raised(e)
    case Returned(key) =>
      match generate(key, prompt)
      case Returned(text) => Returned(text)
      case Raised(e) => Raised("Error calling Gemini API: " + e)
  }
}
