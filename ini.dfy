/** The view of an INI file that Python's `configparser.ConfigParser` gives once it has
    read the file: named sections of options plus the `DEFAULT` section, whose options
    every other section inherits. The parser stores option names lower-cased and looks
    them up lower-cased, so `apiKey` and `apikey` name the same option; section names
    are case-sensitive.

    `ConfigParser` applies `BasicInterpolation` to every value it hands out and to every
    value it is given: a file stores values raw, `%%` reads back as `%`, `%(name)s` reads
    back as the value of option `name` of the same section, and any other `%` is an
    error. Reading raises `InterpolationError`; setting raises `ValueError`. */
module IniConfig {
  import opened Wrappers
  import opened Text

  datatype Ini = Ini(sections: map<string, map<string, string>>, defaults: map<string, string>)

  const DefaultSection: string := "DEFAULT"

  /** `MAX_INTERPOLATION_DEPTH`: how many references deep a value may be expanded. */
  const MaxDepth: nat := 10

  /** `section in config`: the `DEFAULT` section is always present. */
  predicate HasSection(ini: Ini, section: string) {
    section == DefaultSection || section in ini.sections
  }

  /** `key in config[section]` (and `ConfigParser.has_option`): own options and
      inherited defaults, and nothing at all for a missing section. */
  predicate HasOption(ini: Ini, section: string, key: string) {
    var k := Lower(key);
    if section == DefaultSection then k in ini.defaults
    else section in ini.sections && (k in ini.sections[section] || k in ini.defaults)
  }

  /** The options a section sees (`_unify_values`): its own over the inherited defaults.
      References inside its values are resolved in this map. */
  function Options(ini: Ini, section: string): map<string, string> {
    if section != DefaultSection && section in ini.sections then ini.defaults + ini.sections[section]
    else ini.defaults
  }

  /** `config.get(section, key, raw=True)`: the value as the file stores it. A section's
      own value hides the inherited one. */
  function RawGet(ini: Ini, section: string, key: string): (v: string)
    requires HasOption(ini, section, key)
    ensures section != DefaultSection && Lower(key) in ini.sections[section] ==> v == ini.sections[section][Lower(key)]
    ensures (section == DefaultSection || Lower(key) !in ini.sections[section]) ==> v == ini.defaults[Lower(key)]
  {
    var k := Lower(key);
    if section != DefaultSection && k in ini.sections[section] then ini.sections[section][k]
    else ini.defaults[k]
  }

  // ---------------------------------------------------------------- interpolation

  /** The value being read, as the exception messages name it: the lower-cased option,
      the section and the raw value. */
  datatype Reading = Reading(option: string, section: string, raw: string)

  /** The length of the `%(name)s` reference that the pattern `%\(([^)]+)\)s` matches
      at the start of `s`, or 0 when it does not match: a non-empty name without `)`,
      closed by `)s`. */
  function ReferenceLength(s: string): (n: nat)
    ensures n == 0 || (4 <= n <= |s| && s[..2] == "%(" && s[n - 2..n] == ")s" && ')' !in s[2..n - 2])
  {
    if |s| >= 2 && s[0] == '%' && s[1] == '(' then
      var j := 2 + IndexOf(s[2..], ')');
      if j > 2 && j + 1 < |s| && s[j + 1] == 's' then
        assert s[2..j] == s[2..][..j - 2];
        j + 2
      else 0
    else 0
  }

  /** The ways interpolation fails: `InterpolationSyntaxError` for a `%` followed by
      neither `%` nor `(` and for a malformed reference, `InterpolationMissingOptionError`
      for a reference to an option the section does not see, `InterpolationDepthError`
      for references nested too deep. */
  datatype InterpolationError = BadPercent(rest: string) | BadReference(rest: string) | MissingOption(name: string) | TooDeep

  /** What interpolation gives: the expanded text or the error. */
  datatype Expansion = Expanded(text: string) | Failed(error: InterpolationError)

  /** The text of the exception, as `str(e)` shows it. */
  function ErrorMessage(at: Reading, e: InterpolationError): string {
    match e
    case BadPercent(rest) => "'%' must be followed by '%' or '(', found: " + Quoted(rest)
    case BadReference(rest) => "bad interpolation variable reference " + Quoted(rest)
    case MissingOption(name) =>
      "Bad value substitution: option " + Quoted(at.option) + " in section " + Quoted(at.section)
      + " contains an interpolation key " + Quoted(name) + " which is not a valid option name. Raw value: "
      + Quoted(at.raw)
    case TooDeep =>
      "Recursion limit exceeded in value substitution: option " + Quoted(at.option) + " in section "
      + Quoted(at.section) + " contains an interpolation key which cannot be substituted in "
      + NatToString(MaxDepth) + " steps. Raw value: " + Quoted(at.raw)
  }

  /** `prefix` put in front of an expanded text; an error passes through. */
  function Prefixed(prefix: string, r: Expansion): Expansion {
    match r
    case Expanded(t) => Expanded(prefix + t)
    case Failed(e) => Failed(e)
  }

  /** `BasicInterpolation._interpolate_some` on `rest` at recursion depth `depth`, with
      the references looked up in `d`: text without `%` is copied, `%%` becomes `%`,
      `%(name)s` becomes the value of `name` (itself expanded when it holds `%`), and
      anything else after a `%` fails. */
  function Interpolate(d: map<string, string>, rest: string, depth: nat): Expansion
    requires 1 <= depth <= MaxDepth
    decreases MaxDepth - depth, |rest|
  {
    if rest == [] then Expanded([])
    else if rest[0] != '%' then Prefixed([rest[0]], Interpolate(d, rest[1..], depth))
    else if |rest| >= 2 && rest[1] == '%' then Prefixed("%", Interpolate(d, rest[2..], depth))
    else if |rest| >= 2 && rest[1] == '(' then
      var n := ReferenceLength(rest);
      if n == 0 then Failed(BadReference(rest))
      else
        var name := Lower(rest[2..n - 2]);
        if name !in d then Failed(MissingOption(name))
        else
          var v := d[name];
          var value :=
            if '%' !in v then Expanded(v)
            else if depth == MaxDepth then Failed(TooDeep)
            else Interpolate(d, v, depth + 1);
          match value
          case Failed(e) => Failed(e)
          case Expanded(t) => Prefixed(t, Interpolate(d, rest[n..], depth))
    else Failed(BadPercent(rest))
  }

  /** `config[section][key]` once `key in config[section]` holds: the interpolated value,
      or the exception interpolation raises. A value without `%` is returned as stored. */
  function Get(ini: Ini, section: string, key: string): (r: Outcome<string>)
    requires HasOption(ini, section, key)
    ensures '%' !in RawGet(ini, section, key) ==> r == Returned(RawGet(ini, section, key))
  {
    var raw := RawGet(ini, section, key);
    if '%' !in raw then
      PlainValueUnchanged(Options(ini, section), raw, 1);
      Returned(raw)
    else
      match Interpolate(Options(ini, section), raw, 1)
      case Expanded(t) => Returned(t)
      case Failed(e) => Raised(ErrorMessage(Reading(Lower(key), section, raw), e))
  }

  /** `config[section].get(key, fallback)`: the interpolated value when the option
      exists, and the fallback, uninterpolated, otherwise. */
  function GetOr(ini: Ini, section: string, key: string, fallback: string): (r: Outcome<string>)
    ensures HasOption(ini, section, key) ==> r == Get(ini, section, key)
    ensures !HasOption(ini, section, key) ==> r == Returned(fallback)
  {
    if HasOption(ini, section, key) then Get(ini, section, key) else Returned(fallback)
  }

  /** Text without `%` comes through interpolation unchanged. */
  lemma {:induction false} PlainValueUnchanged(d: map<string, string>, v: string, depth: nat)
    requires 1 <= depth <= MaxDepth
    requires '%' !in v
    ensures Interpolate(d, v, depth) == Expanded(v)
    decreases |v|
  {
    if v != [] {
      assert '%' !in v[1..];
      PlainValueUnchanged(d, v[1..], depth);
      assert [v[0]] + v[1..] == v;
    }
  }

  /** `s.replace('%', '%%')`: the text that reads back as `s`. */
  function Escape(s: string): string {
    Replace(s, "%", "%%")
  }

  // ---------------------------------------------------------------- before_set

  /** `_KEYCRE.sub('', s)`: every `%(name)s` reference removed, from left to right. */
  function RemoveReferences(s: string): string
    decreases |s|
  {
    if s == [] then []
    else
      var n := ReferenceLength(s);
      if n > 0 then RemoveReferences(s[n..]) else [s[0]] + RemoveReferences(s[1..])
  }

  /** What `BasicInterpolation.before_set` lets through: once the `%%` escapes and the
      `%(name)s` references are removed, no `%` is left. */
  predicate SetAccepts(value: string) {
    '%' !in RemoveReferences(Replace(value, "%%", ""))
  }

  /** The `ValueError` that `before_set` raises for `value`, if any. */
  function SetError(value: string): (e: Option<string>)
    ensures e.None? <==> SetAccepts(value)
  {
    var tmp := RemoveReferences(Replace(value, "%%", ""));
    if '%' in tmp then
      Some("invalid interpolation syntax in " + Quoted(value) + " at position " + NatToString(IndexOf(tmp, '%')))
    else None
  }

  /** Text without `(`, or without `%`, cannot hold a `%(name)s` reference. */
  predicate HoldsNoReference(s: string) {
    '(' !in s || '%' !in s
  }

  /** Text that holds no reference is left as it is when references are removed. */
  lemma {:induction false} RemoveReferencesOfPlain(s: string)
    requires HoldsNoReference(s)
    ensures RemoveReferences(s) == s
    decreases |s|
  {
    if s != [] {
      assert HoldsNoReference(s[1..]);
      RemoveReferencesOfPlain(s[1..]);
      assert [s[0]] + s[1..] == s;
    }
  }

  /** For a value without `(`, reading it back and setting it agree: interpolation
      returns exactly when `before_set` accepts the value, and it returns the value with
      each `%%` halved. */
  lemma {:induction false} NoReferenceReadsUnescaped(d: map<string, string>, v: string, depth: nat)
    requires 1 <= depth <= MaxDepth
    requires '(' !in v
    ensures Interpolate(d, v, depth).Expanded? <==> SetAccepts(v)
    ensures SetAccepts(v) ==> Interpolate(d, v, depth) == Expanded(Replace(v, "%%", "%"))
    decreases |v|
  {
    ReplaceAvoids(v, "%%", "", '(');
    RemoveReferencesOfPlain(Replace(v, "%%", ""));
    if v == [] {
    } else if v[0] != '%' {
      assert '(' !in v[1..];
      NoReferenceReadsUnescaped(d, v[1..], depth);
      ReplaceAvoids(v[1..], "%%", "", '(');
      RemoveReferencesOfPlain(Replace(v[1..], "%%", ""));
      assert Replace(v, "%%", "") == [v[0]] + Replace(v[1..], "%%", "");
      assert Replace(v, "%%", "%") == [v[0]] + Replace(v[1..], "%%", "%");
    } else if |v| >= 2 && v[1] == '%' {
      assert "%%" <= v;
      assert '(' !in v[2..];
      NoReferenceReadsUnescaped(d, v[2..], depth);
      ReplaceAvoids(v[2..], "%%", "", '(');
      RemoveReferencesOfPlain(Replace(v[2..], "%%", ""));
      assert Replace(v, "%%", "") == Replace(v[2..], "%%", "");
      assert Replace(v, "%%", "%") == "%" + Replace(v[2..], "%%", "%");
    } else {
      assert |v| >= 2 ==> v[1] != '(';
      assert !("%%" <= v);
      assert Replace(v, "%%", "")[0] == '%';
    }
  }

  /** `config[section][key]` for a stored value that holds no reference (no `(`, or no
      `%`, as in `+1 (415) 555-0100`): it returns exactly when
      `before_set` would accept the stored value, and then every `%%` is halved. */
  lemma GetWithoutReference(ini: Ini, section: string, key: string)
    requires HasOption(ini, section, key)
    requires HoldsNoReference(RawGet(ini, section, key))
    ensures Get(ini, section, key).Returned? <==> SetAccepts(RawGet(ini, section, key))
    ensures SetAccepts(RawGet(ini, section, key)) ==>
      Get(ini, section, key) == Returned(Replace(RawGet(ini, section, key), "%%", "%"))
  {
    var raw := RawGet(ini, section, key);
    if '%' !in raw {
      ReplaceAbsent(raw, "%%", "");
      ReplaceAbsent(raw, "%%", "%");
      RemoveReferencesOfPlain(raw);
    } else {
      NoReferenceReadsUnescaped(Options(ini, section), raw, 1);
    }
  }

  /** The escape is undone by reading: `Escape(s)` is accepted when set and reads back
      as `s`. */
  lemma {:induction false} EscapeRoundTrip(d: map<string, string>, s: string, depth: nat)
    requires 1 <= depth <= MaxDepth
    ensures SetAccepts(Escape(s))
    ensures Interpolate(d, Escape(s), depth) == Expanded(s)
    decreases |s|
  {
    if s == [] {
    } else {
      EscapeRoundTrip(d, s[1..], depth);
      var e := Escape(s[1..]);
      if s[0] == '%' {
        assert Escape(s) == "%%" + e;
        assert ("%%" + e)[2..] == e;
        assert "%%" <= "%%" + e;
        assert Replace(Escape(s), "%%", "") == Replace(e, "%%", "");
        assert s == "%" + s[1..];
      } else {
        assert Escape(s) == [s[0]] + e;
        assert ([s[0]] + e)[1..] == e;
        assert Replace(Escape(s), "%%", "") == [s[0]] + Replace(e, "%%", "");
        assert RemoveReferences([s[0]] + Replace(e, "%%", "")) == [s[0]] + RemoveReferences(Replace(e, "%%", ""));
        assert s == [s[0]] + s[1..];
      }
    }
  }

  /** A value whose only `%` is its last character fails to interpolate: that `%` is
      followed by nothing. */
  lemma {:induction false} TrailingPercentFails(d: map<string, string>, s: string, depth: nat)
    requires 1 <= depth <= MaxDepth
    requires |s| >= 1 && s[|s| - 1] == '%' && '%' !in s[..|s| - 1]
    ensures Interpolate(d, s, depth).Failed?
    decreases |s|
  {
    if |s| > 1 {
      assert s[0] in s[..|s| - 1];
      assert s[1..][..|s| - 2] == s[1..|s| - 1];
      TrailingPercentFails(d, s[1..], depth);
    }
  }

  /** `config[section][key]` raises when the stored value's only `%` is its last
      character. */
  lemma TrailingPercentRaises(ini: Ini, section: string, key: string)
    requires HasOption(ini, section, key)
    requires var raw := RawGet(ini, section, key);
      |raw| >= 1 && raw[|raw| - 1] == '%' && '%' !in raw[..|raw| - 1]
    ensures Get(ini, section, key).Raised?
  {
    var raw := RawGet(ini, section, key);
    assert raw[|raw| - 1] in raw;
    TrailingPercentFails(Options(ini, section), raw, 1);
  }

  /** A section holding exactly two options, each looked up by its lower-case name,
      sees just those two over the defaults. */
  lemma TwoOptionSection(ini: Ini, section: string, k1: string, v1: string, k2: string, v2: string)
    requires section != DefaultSection && section in ini.sections
    requires ini.sections[section] == map[k1 := v1, k2 := v2]
    requires IsLower(k1) && IsLower(k2) && k1 != k2
    ensures HasOption(ini, section, k1) && RawGet(ini, section, k1) == v1
    ensures HasOption(ini, section, k2) && RawGet(ini, section, k2) == v2
  {
    LowerOfLower(k1);
    LowerOfLower(k2);
  }
}
