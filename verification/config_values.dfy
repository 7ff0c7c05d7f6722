/**
 * How `UMLDocletConfig` resolves a setting's value: the explicit option, then
 * a standard option standing in for it, then the declared default.
 */
module ConfigValues {
  import opened Wrappers
  import opened JavaStrings
  import opened OptionValues
  import opened DocletSetting
  import opened DocletConfig

  /** Items joined with `", "`, as `AbstractCollection.toString` lists them. */
  function CommaList(items: seq<string>): string {
    if items == [] then []
    else if |items| == 1 then items[0]
    else items[0] + ", " + CommaList(items[1..])
  }

  /** `Objects.toString` of a stored value: the text itself, or the list in brackets. */
  function Rendered(v: Value): string {
    match v
    case Text(t) => t
    case Items(xs) => "[" + CommaList(xs) + "]"
  }

  /** A standard option that supplies a value for the fallback name: it has a parameter and its name matches ignoring case. */
  predicate Supplies(option: seq<string>, name: string) {
    |option| > 1 && EqualsIgnoreCase(name, option[0])
  }

  predicate NoneSupplies(std: seq<seq<string>>, name: string) {
    forall k :: 0 <= k < |std| ==> !Supplies(std[k], name)
  }

  predicate NoFallback(std: seq<seq<string>>, names: seq<string>) {
    forall i :: 0 <= i < |names| ==> NoneSupplies(std, names[i])
  }

  /**
   * Standard option `j` answers fallback name `i`, and is the first to do so:
   * no earlier name is supplied by any standard option, and no earlier
   * standard option supplies name `i`.
   */
  predicate FirstFallbackAt(std: seq<seq<string>>, names: seq<string>, i: int, j: int) {
    && 0 <= i < |names| && 0 <= j < |std|
    && Supplies(std[j], names[i])
    && (forall k :: 0 <= k < j ==> !Supplies(std[k], names[i]))
    && (forall i' :: 0 <= i' < i ==> NoneSupplies(std, names[i']))
  }

  /** The first standard option that supplies `name`. */
  function SupplierIndex(std: seq<seq<string>>, name: string): (r: Option<nat>)
    ensures r.Some? ==> r.value < |std| && Supplies(std[r.value], name)
    ensures r.Some? ==> forall k :: 0 <= k < r.value ==> !Supplies(std[k], name)
    ensures r.None? ==> NoneSupplies(std, name)
    decreases |std|
  {
    if std == [] then None
    else if Supplies(std[0], name) then Some(0)
    else match SupplierIndex(std[1..], name)
      case None => None
      case Some(k) => Some(k + 1)
  }

  /** The nested loop of `stringValue`: the fallback names in order, each against every standard option. */
  function Fallback(std: seq<seq<string>>, names: seq<string>): Option<string>
    decreases |names|
  {
    if names == [] then None
    else match SupplierIndex(std, names[0])
      case Some(j) => Some(std[j][1])
      case None => Fallback(std, names[1..])
  }

  /**
   * The loop finds nothing exactly when no standard option supplies any of
   * the names, and otherwise yields the parameter of the first supplier of
   * the earliest supplied name.
   */
  lemma {:induction false} FallbackSpec(std: seq<seq<string>>, names: seq<string>)
    ensures Fallback(std, names).None? <==> NoFallback(std, names)
    ensures forall i, j :: FirstFallbackAt(std, names, i, j) ==> Fallback(std, names) == Some(std[j][1])
    decreases |names|
  {
    if names != [] {
      match SupplierIndex(std, names[0])
      case Some(j) =>
        assert forall i, j' :: FirstFallbackAt(std, names, i, j') ==> i == 0 && j' == j;
      case None =>
        FallbackSpec(std, names[1..]);
        forall i, j | FirstFallbackAt(std, names, i, j)
          ensures FirstFallbackAt(std, names[1..], i - 1, j)
        {
          assert i != 0;
          forall i' | 0 <= i' < i - 1
            ensures NoneSupplies(std, names[1..][i'])
          {
            assert names[1..][i'] == names[i' + 1];
          }
        }
        if NoFallback(std, names[1..]) {
          forall i | 0 <= i < |names|
            ensures NoneSupplies(std, names[i])
          {
            if i > 0 {
              assert names[i] == names[1..][i - 1];
            }
          }
        }
    }
  }


  /**
   * `stringValue(setting, standardOpts...)`: the explicit value if the
   * setting was given; otherwise the parameter of the first standard option
   * that supplies one of the fallback names, trying names in order;
   * otherwise the setting's default (`None` standing for `null`).
   */
  function StringValue(cfg: Config, s: Setting, names: seq<string>): (r: Option<string>)
    ensures s in cfg.values ==> r == Some(Rendered(cfg.values[s]))
    ensures DefaultValue(s).Some? ==> r.Some?
  {
    if s in cfg.values then Some(Rendered(cfg.values[s]))
    else match Fallback(cfg.standardOptions, names)
      case Some(v) => Some(v)
      case None => DefaultValue(s)
  }

  /**
   * The order of preference of `stringValue`: a given setting wins; then the
   * first standard option supplying the earliest fallback name that any
   * supplies; the default only when none does.
   */
  lemma StringValuePreference(cfg: Config, s: Setting, names: seq<string>)
    ensures s in cfg.values ==> StringValue(cfg, s, names) == Some(Rendered(cfg.values[s]))
    ensures s !in cfg.values && NoFallback(cfg.standardOptions, names) ==> StringValue(cfg, s, names) == DefaultValue(s)
    ensures s !in cfg.values && !NoFallback(cfg.standardOptions, names) ==> StringValue(cfg, s, names).Some?
    ensures s !in cfg.values ==> forall i, j :: FirstFallbackAt(cfg.standardOptions, names, i, j) ==>
      StringValue(cfg, s, names) == Some(cfg.standardOptions[j][1])
  {
    FallbackSpec(cfg.standardOptions, names);
  }

  /** Without fallback names the value is the explicit one or the default. */
  lemma NoNamesNoFallback(cfg: Config, s: Setting)
    ensures StringValue(cfg, s, []) == if s in cfg.values then Some(Rendered(cfg.values[s])) else DefaultValue(s)
  {
  }

  /**
   * `stringValues`: a list setting's items, the split text of a setting that
   * holds text, or the split default. A missing `null` default would throw,
   * so the setting must be given or have a default.
   */
  function StringValues(cfg: Config, s: Setting): (r: seq<string>)
    requires s in cfg.values || DefaultValue(s).Some?
    ensures AllTokens(r) || (s in cfg.values && cfg.values[s].Items? && r == cfg.values[s].items)
    ensures WellFormed(cfg) ==> AllTokens(r)
  {
    if s in cfg.values then
      match cfg.values[s]
      case Items(xs) => xs
      case Text(t) => Split([t])
    else Split([DefaultValue(s).value])
  }

  /** `umlCommands`. */
  function UmlCommands(cfg: Config): seq<string> {
    StringValues(cfg, UmlCommand)
  }

  /** `excludedReferences`, without the memoisation. */
  function ExcludedReferences(cfg: Config): seq<string> {
    StringValues(cfg, UmlExcludedReferences)
  }

  /** The empty default of `umlCommand` yields no commands. */
  lemma UnsetCommandsAreEmpty(cfg: Config)
    requires UmlCommand !in cfg.values
    ensures UmlCommands(cfg) == []
  {
    assert DefaultValue(UmlCommand) == Some("");
    assert UmlCommands(cfg) == Split([""]);
    SplitEmpty();
  }

  /** Two tokens written as a comma-and-space separated list split back into those two tokens. */
  lemma SplitCommaSpace(a: string, b: string)
    requires IsToken(a) && IsToken(b)
    ensures Split([a + ", " + b]) == [a, b]
  {
    var padded := " " + b;
    assert a + ", " + b == Join([a, padded], ',');
    assert forall c :: c in padded ==> c == ' ' || c in b;
    PiecesJoin([a, padded], ',');
    assert [a + ", " + b][..0] == [];
    assert Split([a + ", " + b]) == Kept([a, padded]);
    assert [a, padded][..1] == [a];
    assert [a][..0] == [];
    assert Kept([a]) == KeepOne(a) == [a];
    assert padded[1..] == b;
    assert KeepOne(padded) == [b];
  }

  /** By default `java.lang.Object` and `java.lang.Enum` are excluded, in that order. */
  lemma DefaultExcludedReferences(cfg: Config)
    requires UmlExcludedReferences !in cfg.values
    ensures ExcludedReferences(cfg) == ["java.lang.Object", "java.lang.Enum"]
  {
    var obj, enm := "java.lang.Object", "java.lang.Enum";
    assert DefaultValue(UmlExcludedReferences).value == obj + ", " + enm;
    assert IsToken(obj) by { TrimUnpadded(obj); }
    assert IsToken(enm) by { TrimUnpadded(enm); }
    SplitCommaSpace(obj, enm);
  }


  /** `umlFileExtension`'s normalisation: a leading dot is added unless there is one. */
  function WithLeadingDot(ext: string): (r: string)
    ensures StartsWith(r, ".")
    ensures StartsWith(ext, ".") ==> r == ext
    ensures !StartsWith(ext, ".") ==> |r| == |ext| + 1 && r[1..] == ext
  {
    if StartsWith(ext, ".") then ext else "." + ext
  }

  /** Normalising twice is normalising once. */
  lemma WithLeadingDotIdempotent(ext: string)
    ensures WithLeadingDot(WithLeadingDot(ext)) == WithLeadingDot(ext)
  {
  }

  /** `umlFileExtension`: the configured extension, which defaults to `.puml`, with a leading dot. */
  function UmlFileExtension(cfg: Config): (r: string)
    ensures StartsWith(r, ".")
    ensures DocletSetting.UmlFileExtension !in cfg.values ==> r == ".puml"
  {
    WithLeadingDot(StringValue(cfg, DocletSetting.UmlFileExtension, []).value)
  }

  /** `umlFileEncoding`: the configured encoding, else the standard `-docEncoding` option, else `UTF-8`. */
  function UmlFileEncoding(cfg: Config): (r: string)
    ensures DocletSetting.UmlFileEncoding in cfg.values ==> r == Rendered(cfg.values[DocletSetting.UmlFileEncoding])
    ensures DocletSetting.UmlFileEncoding !in cfg.values && NoneSupplies(cfg.standardOptions, "-docEncoding") ==> r == "UTF-8"
    ensures forall j :: DocletSetting.UmlFileEncoding !in cfg.values && FirstFallbackAt(cfg.standardOptions, ["-docEncoding"], 0, j) ==>
      r == cfg.standardOptions[j][1]
  {
    var names := ["-docEncoding"];
    StringValuePreference(cfg, DocletSetting.UmlFileEncoding, names);
    assert NoFallback(cfg.standardOptions, names) <==> NoneSupplies(cfg.standardOptions, names[0]);
    StringValue(cfg, DocletSetting.UmlFileEncoding, names).value
  }

  /** `basePath`: the configured base path, else the canonical working directory (a parameter here). */
  function BasePath(cfg: Config, defaultBasePath: string): (r: string)
    ensures UmlBasePath in cfg.values ==> r == Rendered(cfg.values[UmlBasePath])
    ensures UmlBasePath !in cfg.values ==> r == defaultBasePath
  {
    match StringValue(cfg, UmlBasePath, [])
    case Some(p) => p
    case None => defaultBasePath
  }

  // ---------------------------------------------------------------------------
  // The log level
  // ---------------------------------------------------------------------------

  /**
   * A `java.util.logging.Level`: one of the nine levels the class declares,
   * or a level `Level.parse` creates for a number none of them carries.
   */
  datatype Level = Off | Severe | Warning | Info | Config | Fine | Finer | Finest | All | Custom(name: string, value: int)

  const MinInt: int := -0x8000_0000
  const MaxInt: int := 0x7fff_ffff

  /** The declared levels, from `OFF` down to `ALL`. */
  const Declared: seq<Level> := [Off, Severe, Warning, Info, Level.Config, Fine, Finer, Finest, All]

  /** `Level.intValue()`. */
  function IntValue(l: Level): int {
    match l
    case Off => MaxInt
    case Severe => 1000
    case Warning => 900
    case Info => 800
    case Config => 700
    case Fine => 500
    case Finer => 400
    case Finest => 300
    case All => MinInt
    case Custom(_, v) => v
  }

  /** `Level.getName()`. */
  function NameOf(l: Level): string {
    match l
    case Off => "OFF"
    case Severe => "SEVERE"
    case Warning => "WARNING"
    case Info => "INFO"
    case Config => "CONFIG"
    case Fine => "FINE"
    case Finer => "FINER"
    case Finest => "FINEST"
    case All => "ALL"
    case Custom(n, _) => n
  }

  /** The decimal value of a string of ASCII digits. */
  function DigitsValue(s: string): nat
    requires forall i :: 0 <= i < |s| ==> '0' <= s[i] <= '9'
  {
    if s == [] then 0 else 10 * DigitsValue(s[..|s| - 1]) + (s[|s| - 1] - '0') as int
  }

  /**
   * `Integer.parseInt` on ASCII text: an optional sign, at least one digit
   * and a value that fits in 32 bits; `None` where it throws
   * `NumberFormatException`.
   */
  function ParseInt(s: string): (r: Option<int>)
    ensures r.Some? ==> MinInt <= r.value <= MaxInt
    ensures r.Some? ==> |s| > 0 && (IsDigits(s) || ((s[0] == '-' || s[0] == '+') && IsDigits(s[1..])))
    ensures IsDigits(s) && DigitsValue(s) <= MaxInt ==> r == Some(DigitsValue(s))
  {
    var signed := |s| > 0 && (s[0] == '-' || s[0] == '+');
    var digits := if signed then s[1..] else s;
    if !IsDigits(digits) then None
    else
      var v: int := if signed && s[0] == '-' then -(DigitsValue(digits) as int) else DigitsValue(digits);
      if MinInt <= v <= MaxInt then Some(v) else None
  }

  /** The level a number stands for: the declared level with that value, or a new one named by the text. */
  function ByValue(name: string, v: int): (l: Level)
    ensures IntValue(l) == v
    ensures !l.Custom? ==> l in Declared
    ensures l.Custom? ==> forall k :: 0 <= k < |Declared| ==> IntValue(Declared[k]) != v
  {
    if v == MaxInt then Off
    else if v == 1000 then Severe
    else if v == 900 then Warning
    else if v == 800 then Info
    else if v == 700 then Level.Config
    else if v == 500 then Fine
    else if v == 400 then Finer
    else if v == 300 then Finest
    else if v == MinInt then All
    else Custom(name, v)
  }

  /**
   * `Level.parse(name)`: a declared level by its exact name, otherwise a
   * number; `Failure` where it throws `IllegalArgumentException`.
   */
  function Parse(name: string): (r: Result<Level, string>)
    ensures r.Failure? ==> ParseInt(name).None?
    ensures r.Success? && r.value.Custom? ==> ParseInt(name) == Some(r.value.value)
  {
    match name
    case "OFF" => Success(Off)
    case "SEVERE" => Success(Severe)
    case "WARNING" => Success(Warning)
    case "INFO" => Success(Info)
    case "CONFIG" => Success(Level.Config)
    case "FINE" => Success(Fine)
    case "FINER" => Success(Finer)
    case "FINEST" => Success(Finest)
    case "ALL" => Success(All)
    case _ =>
      match ParseInt(name)
      case Some(v) => Success(ByValue(name, v))
      case None => Failure("Bad level \"" + name + "\"")
  }

  /** Round trip: every declared level is parsed back from its name. */
  lemma ParseName(k: nat)
    requires k < |Declared|
    ensures Parse(NameOf(Declared[k])) == Success(Declared[k])
  {
  }

  /** The alias table of `umlLogLevel`, applied to the upper-cased name; `ALL` means `FINEST` here, not `Level.ALL`. */
  function LevelFor(upper: string): Result<Level, string> {
    match upper
    case "ALL" => Success(Finest)
    case "TRACE" => Success(Finest)
    case "DEBUG" => Success(Fine)
    case "WARN" => Success(Warning)
    case "ERROR" => Success(Severe)
    case "FATAL" => Success(Severe)
    case _ => Parse(upper)
  }

  /** The aliases, listed as a table. */
  const Aliases: map<string, Level> :=
    map["ALL" := Finest, "TRACE" := Finest, "DEBUG" := Fine, "WARN" := Warning, "ERROR" := Severe, "FATAL" := Severe]

  /** The switch agrees with the table: aliases map to their level, other names go to `Level.parse` unchanged. */
  lemma LevelForTable(upper: string)
    ensures upper in Aliases ==> LevelFor(upper) == Success(Aliases[upper])
    ensures upper !in Aliases ==> LevelFor(upper) == Parse(upper)
  {
  }

  /** Each alias denotes the same level as the declared name it stands for. */
  lemma AliasesAreDeclaredLevels()
    ensures LevelFor("ALL") == LevelFor("TRACE") == LevelFor("FINEST") == Success(Finest)
    ensures LevelFor("DEBUG") == LevelFor("FINE") == Success(Fine)
    ensures LevelFor("WARN") == LevelFor("WARNING") == Success(Warning)
    ensures LevelFor("ERROR") == LevelFor("FATAL") == LevelFor("SEVERE") == Success(Severe)
  {
  }

  /** Numbers name the declared level with that value, or a new level; other unknown names are refused. */
  lemma NumericLevelNames()
    ensures LevelFor("800") == Success(Info)
    ensures LevelFor("42") == Success(Custom("42", 42))
    ensures LevelFor("VERBOSE").Failure?
  {
    assert "800"[..2] == "80" && "80"[..1] == "8" && "8"[..0] == "";
    assert DigitsValue("800") == 800;
    assert "42"[..1] == "4" && "4"[..0] == "";
    assert DigitsValue("42") == 42;
    assert !IsDigits("VERBOSE") by { assert "VERBOSE"[0] == 'V'; }
  }

  /**
   * `umlLogLevel`: the setting's text, upper-cased, through the alias table
   * and otherwise `Level.parse`; `INFO` when the setting is not given.
   */
  function UmlLogLevel(cfg: Config): (r: Result<Level, string>)
    ensures DocletSetting.UmlLogLevel in cfg.values && cfg.values[DocletSetting.UmlLogLevel].Text? ==>
      var upper := UpperCase(cfg.values[DocletSetting.UmlLogLevel].text);
      (upper in Aliases ==> r == Success(Aliases[upper])) && (upper !in Aliases ==> r == Parse(upper))
    ensures DocletSetting.UmlLogLevel !in cfg.values ==> r == Success(Info)
  {
    NoNamesNoFallback(cfg, DocletSetting.UmlLogLevel);
    var text := StringValue(cfg, DocletSetting.UmlLogLevel, []).value;
    LevelForTable(UpperCase(text));
    InfoIsDefault();
    LevelFor(UpperCase(text))
  }

  /** The default `INFO` names the declared level `INFO`. */
  lemma InfoIsDefault()
    ensures DefaultValue(DocletSetting.UmlLogLevel) == Some("INFO")
    ensures LevelFor(UpperCase("INFO")) == Success(Info)
  {
    assert UpperCase("INFO") == "INFO";
  }

  /** Names that differ only in case give the same level. */
  lemma LevelIgnoresCase(a: string, b: string)
    requires EqualsIgnoreCase(a, b)
    ensures LevelFor(UpperCase(a)) == LevelFor(UpperCase(b))
  {
    assert UpperCase(a) == UpperCase(b) by {
      assert |a| == |LowerCase(a)| == |LowerCase(b)| == |b|;
      forall i | 0 <= i < |a|
        ensures UpperCase(a)[i] == UpperCase(b)[i]
      {
        assert LowerCase(a)[i] == LowerCase(b)[i];
      }
    }
  }

  // ---------------------------------------------------------------------------
  // The constructor's last step, and validOptions
  // ---------------------------------------------------------------------------

  /**
   * `new UMLDocletConfig(options, reporter)` as a whole: the options absorbed
   * as `NewConfig` does, then `initializeUmlLogging`, which sets the root
   * logger to `umlLogLevel()` and so throws when `Level.parse` refuses the name.
   */
  function Construct(matches: Matcher, options: seq<seq<string>>): (r: Result<Config, string>)
    ensures r.Success? ==> r.value == NewConfig(matches, options) && UmlLogLevel(r.value).Success?
    ensures r.Failure? ==> UmlLogLevel(NewConfig(matches, options)).Failure?
  {
    var cfg := NewConfig(matches, options);
    match UmlLogLevel(cfg)
    case Success(_) => Success(cfg)
    case Failure(e) => Failure(e)
  }

  /** Without a `-umlLogLevel` option the level is `INFO`, so the constructor completes. */
  lemma {:induction false} UnsetLevelConstructs(matches: Matcher, options: seq<seq<string>>)
    requires forall i :: 0 <= i < |options| ==> ForOption(matches, options[i]) != Some(DocletSetting.UmlLogLevel)
    ensures Construct(matches, options) == Success(NewConfig(matches, options))
  {
    if DocletSetting.UmlLogLevel in NewConfig(matches, options).values {
      StoredSettingsWereGiven(matches, options, DocletSetting.UmlLogLevel);
      assert false;
    }
  }

  /**
   * `validOptions` with the constructor's exception: a level name that
   * `Level.parse` refuses escapes as an exception instead of a boolean.
   */
  function ValidOptionsChecked(matches: Matcher, standardValid: seq<seq<string>> -> bool, options: seq<seq<string>>): (r: Result<bool, string>)
    ensures r.Failure? <==> Construct(matches, options).Failure?
    ensures r.Success? ==> r.value == ValidOptions(matches, standardValid, options)
  {
    match Construct(matches, options)
    case Failure(e) => Failure(e)
    case Success(_) => Success(ValidOptions(matches, standardValid, options))
  }

  /**
   * A lone `-umlLogLevel` option with a name `Level.parse` refuses passes
   * validation and leaves nothing invalid, so the boolean reading says the
   * options are valid; the constructor throws all the same.
   */
  lemma RefusedLevelThrows(matches: Matcher, standardValid: seq<seq<string>> -> bool, option: seq<string>)
    requires ForOption(matches, option) == Some(DocletSetting.UmlLogLevel)
    requires |option| == 2 && LevelFor(UpperCase(option[1])).Failure?
    requires standardValid([])
    ensures ValidOptions(matches, standardValid, [option])
    ensures ValidOptionsChecked(matches, standardValid, [option]).Failure?
  {
    assert Validate(DocletSetting.UmlLogLevel, option).Success?;
    SingleTextStored(matches, option, DocletSetting.UmlLogLevel);
    var cfg := NewConfig(matches, [option]);
    NoNamesNoFallback(cfg, DocletSetting.UmlLogLevel);
    assert StringValue(cfg, DocletSetting.UmlLogLevel, []) == Some(option[1]);
  }

  /** `-umlLogLevel VERBOSE` is valid by the boolean reading, yet the constructor throws. */
  lemma VerboseLevelThrows(matches: Matcher, standardValid: seq<seq<string>> -> bool, name: string)
    requires ForOption(matches, [name, "VERBOSE"]) == Some(DocletSetting.UmlLogLevel)
    requires standardValid([])
    ensures ValidOptions(matches, standardValid, [[name, "VERBOSE"]])
    ensures ValidOptionsChecked(matches, standardValid, [[name, "VERBOSE"]]).Failure?
  {
    assert UpperCase("VERBOSE") == "VERBOSE";
    NumericLevelNames();
    RefusedLevelThrows(matches, standardValid, [name, "VERBOSE"]);
  }
}
