# UML Doclet configuration, class rendering and two PlantUML sequence-diagram pieces, in Dafny

This project models the core of the UML Doclet: its command-line option handling (`UMLDocletConfig`) and the rendering of one class (`ClassRenderer`). It also models two pieces of the PlantUML library it bundles: the `box` command of sequence diagrams (`CommandBoxStart`) and the page-break layout tile (`NewpageTile`). Each piece is written as immutable datatypes and pure functions, with a few loop methods. Contracts and lemmas state what the Java code promises.

- **Settings** (`doclet_setting.dfy`, module `DocletSetting`):
  - the `Setting` enum in declaration order, with its delegates, defaults and option lengths;
  - `forOption`, which finds the first setting whose delegate matches;
  - `validate`, which checks the arity and then the boolean or numeric parameter.
- **Option values** (`option_values.dfy`, module `OptionValues`):
  - `split` cuts on `,`, `;` and line feeds, trims each piece and keeps the non-empty ones;
  - `add` moves from the immutable empty list, to the immutable singleton list, to a growable list.
- **The constructor** (`doclet_config.dfy`, module `DocletConfig`). It sorts every option into one of three groups:
  - a standard option that no setting matches;
  - an invalid option that failed validation;
  - an accepted option. Its value is stored, or appended to the earlier values for a list setting.

  The same file holds `validOptions` and `optionLength`.
- **Value accessors** (`config_values.dfy`, module `ConfigValues`):
  - `stringValue` with its fallback to standard options, and `stringValues`;
  - `umlFileExtension`, `umlFileEncoding`, `basePath`, `umlCommands` and `excludedReferences`;
  - `umlLogLevel` with its alias table and `Level.parse`.
  - the constructor's last step, `initializeUmlLogging`, which throws on a refused level, and `validOptions` with that exception.
- **Boolean settings** (`boolean_settings.dfy`, module `BooleanSettings`): reading through `Boolean.valueOf`, a trimmed reading beside it, and `includeMethodParams`.
- **Class filter** (`class_filter.dfy`, module `ClassFilter`): `includeClass`.
- **Class rendering** (`class_renderer.dfy`, module `ClassRenderer`):
  - the constructor's ordering of children: fields, then constructors, then concrete methods, then abstract methods;
  - `umlType`;
  - the shape of the text `writeTo` produces.
- **The `box` command** (`command_box_start.dfy`, module `CommandBoxStart`). The grammar `^box(?:\s+"([^"]+)"|\s+([^#]+))?\s*COLOR?$` is given twice:
  - as a well-formed decomposition of a line;
  - as the decomposition that a backtracking matcher settles on.

  The file also models `executeArg`.
- **The page-break tile** (`newpage_tile.dfy`, module `NewpageTile`): its geometry and the Y callback.

Supporting modules are `Wrappers` (`Option`, `Result`) and `JavaStrings`, which covers `String.trim` and English-locale case folding. `Javadoc` is the part of the javadoc API that is read: a class document with its flags and its fields, constructors and methods.

Java details that are modelled explicitly:
- `String.trim` removes every character up to `' '`.
- `Boolean.valueOf` does not trim.
- `\s` is the six characters space, tab, line feed, vertical tab, form feed and carriage return.
- A regular-expression quantifier is greedy and gives back one character at a time.
- A `double` field starts at 0.

`AbstractSetting.matches` is the parameter `matches`. `Standard.optionLength` and `Standard.validOptions` are parameters. The colour parser is the parameter `isColor`, of which only one fact is used: every colour starts with `#`.

## Model

Paths are relative to the repository root. `UMLDocletConfig.java` stands for `src/main/java/nl/talsmasoftware/umldoclet/UMLDocletConfig.java`, and so on for each table cell's full path.

| member | source | states |
|---|---|---|
| DocletSetting.DelegateKinds | src/main/java/nl/talsmasoftware/umldoclet/UMLDocletConfig.java:48-93 | Each setting's kind (list, integer, string, boolean) is the kind of its delegate. A boolean setting's declared default is the delegate's default. |
| DocletSetting.ValuesComplete | src/main/java/nl/talsmasoftware/umldoclet/UMLDocletConfig.java:49-81 | The declaration-order list that `values()` walks contains every setting. |
| DocletSetting.FirstMatch | src/main/java/nl/talsmasoftware/umldoclet/UMLDocletConfig.java:103-107 | The loop returns the index of the first matching setting and no earlier one matches. It returns nothing only when no setting in the list matches. |
| DocletSetting.ForOption | src/main/java/nl/talsmasoftware/umldoclet/UMLDocletConfig.java:101-110 | An empty option finds nothing. A found setting matches the option name and is the first in declaration order that does. Nothing is found only when no setting matches. |
| DocletSetting.Validate | src/main/java/nl/talsmasoftware/umldoclet/UMLDocletConfig.java:112-128 | A wrong length fails with the expected and received lengths. A boolean setting passes iff its trimmed parameter is `true` or `false` in any case. An integer setting passes iff the trimmed parameter is all digits. String and list settings always pass. Success returns the input unchanged. |
| DocletSetting.NegativeIndentationRefused | src/main/java/nl/talsmasoftware/umldoclet/UMLDocletConfig.java:123-125 | A user-supplied `-1` for `umlIndentation` is refused as not numeric, although `-1` is that setting's default. |
| DocletSetting.BooleanTextAccepted | src/main/java/nl/talsmasoftware/umldoclet/UMLDocletConfig.java:119-122 | `Boolean.toString` of either boolean passes the boolean check. |
| DocletSetting.BooleanDefaultsValidate | src/main/java/nl/talsmasoftware/umldoclet/UMLDocletConfig.java:87-89 | A boolean setting's default is `Boolean.toString` of its delegate's default, and that default validates. |
| JavaStrings.TrimSpec | src/main/java/nl/talsmasoftware/umldoclet/UMLDocletConfig.java:550 | `trim` never lengthens. A non-empty result starts and ends with a non-blank. Every character of the result comes from the input. |
| JavaStrings.TrimUnpadded | src/main/java/nl/talsmasoftware/umldoclet/UMLDocletConfig.java:552 | `trim` leaves alone a string that neither starts nor ends with a blank. |
| JavaStrings.TrimIdempotent | src/main/java/nl/talsmasoftware/umldoclet/UMLDocletConfig.java:550-552 | Trimming twice, as `split` does, is the same as trimming once. |
| JavaStrings.LowerCase | src/main/java/nl/talsmasoftware/umldoclet/UMLDocletConfig.java:120 | English-locale lower-casing keeps the length and lower-cases each character on its own. |
| JavaStrings.UpperCase | src/main/java/nl/talsmasoftware/umldoclet/UMLDocletConfig.java:218 | English-locale upper-casing keeps the length and upper-cases each character on its own. |
| JavaStrings.UpperCaseIdempotent | src/main/java/nl/talsmasoftware/umldoclet/UMLDocletConfig.java:218 | Upper-casing an upper-cased name changes nothing. |
| JavaStrings.EqualsIgnoreCaseUpper | src/main/java/nl/talsmasoftware/umldoclet/UMLDocletConfig.java:191 | Comparing ignoring case is unaffected by upper-casing one side first. |
| OptionValues.Pieces | src/main/java/nl/talsmasoftware/umldoclet/UMLDocletConfig.java:549 | `String.split("[,;\\n]")`: a string without a separator comes back whole, even when empty. Otherwise it is cut at every separator and the trailing empty strings are dropped, so the last piece is never empty. |
| OptionValues.PiecesSeparatorFree | src/main/java/nl/talsmasoftware/umldoclet/UMLDocletConfig.java:549 | No piece contains a separator. |
| OptionValues.Add | src/main/java/nl/talsmasoftware/umldoclet/UMLDocletConfig.java:559-570 | Whichever list representation `add` starts from (empty, singleton or growable), the result holds the old elements followed by the new one. |
| OptionValues.AddTrimmed | src/main/java/nl/talsmasoftware/umldoclet/UMLDocletConfig.java:550-553 | One piece adds its trimmed text when that text is non-empty, and nothing otherwise. |
| OptionValues.AddPieces | src/main/java/nl/talsmasoftware/umldoclet/UMLDocletConfig.java:549-554 | The inner loop appends the kept pieces of one value, in order. |
| OptionValues.SplitList | src/main/java/nl/talsmasoftware/umldoclet/UMLDocletConfig.java:546-557 | The loops of `split` build, in a valid list, exactly the functional `Split` of the values. |
| OptionValues.Split | src/main/java/nl/talsmasoftware/umldoclet/UMLDocletConfig.java:546-557 | Every item `split` returns is non-empty, trimmed and free of `,`, `;` and line feeds. |
| OptionValues.KeptAreTokens | src/main/java/nl/talsmasoftware/umldoclet/UMLDocletConfig.java:550-553 | Separator-free pieces are kept as tokens: non-empty, trimmed and separator-free. |
| OptionValues.SplitAppend | src/main/java/nl/talsmasoftware/umldoclet/UMLDocletConfig.java:546-557 | Splitting two groups of values is splitting each and concatenating. |
| OptionValues.PiecesJoin | src/main/java/nl/talsmasoftware/umldoclet/UMLDocletConfig.java:549 | Splitting separator-free items joined by a separator gives the items back, provided the last one is not empty, since that one would be dropped. |
| OptionValues.TrailingEmptiesDropped | src/main/java/nl/talsmasoftware/umldoclet/UMLDocletConfig.java:549 | `,` splits into nothing, `a,;` into `a`, `,a` keeps its leading empty piece, and the empty string comes back as one empty piece. |
| OptionValues.KeptTokens | src/main/java/nl/talsmasoftware/umldoclet/UMLDocletConfig.java:550-553 | Tokens are kept unchanged and in order. |
| OptionValues.SplitJoin | src/main/java/nl/talsmasoftware/umldoclet/UMLDocletConfig.java:546-557 | Round trip: splitting tokens joined by any separator returns the tokens. |
| OptionValues.SplitToken | src/main/java/nl/talsmasoftware/umldoclet/UMLDocletConfig.java:546-557 | A single token splits into itself. |
| OptionValues.SplitEmpty | src/main/java/nl/talsmasoftware/umldoclet/UMLDocletConfig.java:546-557 | The empty string splits into nothing. |
| DocletConfig.Classify | src/main/java/nl/talsmasoftware/umldoclet/UMLDocletConfig.java:150-166 | An option is standard iff no setting matches it. An accepted option passed validation. A non-list option stores its parameter. |
| DocletConfig.NewConfigStep | src/main/java/nl/talsmasoftware/umldoclet/UMLDocletConfig.java:147-168 | The options are absorbed one at a time, in order. |
| DocletConfig.NewConfig | src/main/java/nl/talsmasoftware/umldoclet/UMLDocletConfig.java:137-170 | The options loop of the constructor: afterwards list settings hold items that are all tokens and other settings hold text. At most as many options are filed as standard or invalid as were given. |
| DocletConfig.Partition | src/main/java/nl/talsmasoftware/umldoclet/UMLDocletConfig.java:146-170 | Every option falls in exactly one of the standard, invalid and accepted groups. |
| DocletConfig.AbsorbWellFormed | src/main/java/nl/talsmasoftware/umldoclet/UMLDocletConfig.java:151-166 | One step appends to the standard or invalid group only an option of that kind. It keeps list values as tokens. |
| DocletConfig.NewConfigGroups | src/main/java/nl/talsmasoftware/umldoclet/UMLDocletConfig.java:146-170 | The constructor's standard and invalid arrays are exactly the unmatched and the refused options, in input order. |
| DocletConfig.StoredSettingsWereGiven | src/main/java/nl/talsmasoftware/umldoclet/UMLDocletConfig.java:146-162 | A setting holds a value only if some option matched it; every other setting falls back to its default. |
| DocletConfig.UnmatchedIsStandard | src/main/java/nl/talsmasoftware/umldoclet/UMLDocletConfig.java:151-152 | An option no setting matches is appended to the standard options and changes nothing else. |
| DocletConfig.RefusedIsInvalid | src/main/java/nl/talsmasoftware/umldoclet/UMLDocletConfig.java:164-166 | An option whose validation throws is appended to the invalid options and changes nothing else. |
| DocletConfig.LastTextWins | src/main/java/nl/talsmasoftware/umldoclet/UMLDocletConfig.java:161-162 | A valid non-list option overwrites the setting's value with its parameter. |
| DocletConfig.ListContribution | src/main/java/nl/talsmasoftware/umldoclet/UMLDocletConfig.java:158-159 | A list option contributes the split of its parameter, without the option name. |
| DocletConfig.RepeatedListOption | src/main/java/nl/talsmasoftware/umldoclet/UMLDocletConfig.java:153-160 | A repeated list option appends its split values to those gathered earlier. |
| DocletConfig.NoInvalidMeansNoneRefused | src/main/java/nl/talsmasoftware/umldoclet/UMLDocletConfig.java:490 | An empty invalid array means that no option was refused. |
| DocletConfig.ValidOptionsValidate | src/main/java/nl/talsmasoftware/umldoclet/UMLDocletConfig.java:487-492 | When `validOptions` holds, the standard doclet accepted the standard options and every matched option passed validation. |
| DocletConfig.OptionLengthOf | src/main/java/nl/talsmasoftware/umldoclet/UMLDocletConfig.java:482-485 | A matched option has length 2. An unmatched one gets the standard doclet's length. |
| ConfigValues.SupplierIndex | src/main/java/nl/talsmasoftware/umldoclet/UMLDocletConfig.java:189-197 | Finds the first standard option of at least two strings whose name equals the given one ignoring case. |
| ConfigValues.FallbackSpec | src/main/java/nl/talsmasoftware/umldoclet/UMLDocletConfig.java:188-198 | The fallback is absent iff no name is supplied. Otherwise it is the parameter of the first supplier of the first supplied name. |
| ConfigValues.StringValue | src/main/java/nl/talsmasoftware/umldoclet/UMLDocletConfig.java:186-200 | A stored value wins. A setting with a default always yields a value. |
| ConfigValues.StringValuePreference | src/main/java/nl/talsmasoftware/umldoclet/UMLDocletConfig.java:186-200 | The order of preference: the stored value, then the first standard-option fallback, then the default. |
| ConfigValues.NoNamesNoFallback | src/main/java/nl/talsmasoftware/umldoclet/UMLDocletConfig.java:186-200 | Without standard option names the value is the stored one or the default. |
| ConfigValues.StringValues | src/main/java/nl/talsmasoftware/umldoclet/UMLDocletConfig.java:202-211 | The list is a stored list as is, or the split of the stored text or the default. In a constructed configuration every element is a token. |
| ConfigValues.UnsetCommandsAreEmpty | src/main/java/nl/talsmasoftware/umldoclet/UMLDocletConfig.java:474-476 | Without `-umlCommand` there are no commands. |
| ConfigValues.SplitCommaSpace | src/main/java/nl/talsmasoftware/umldoclet/UMLDocletConfig.java:549-552 | Two tokens written `a, b` split back into those two tokens. |
| ConfigValues.DefaultExcludedReferences | src/main/java/nl/talsmasoftware/umldoclet/UMLDocletConfig.java:458-464 | By default `java.lang.Object` and `java.lang.Enum` are excluded, in that order. |
| ConfigValues.WithLeadingDot | src/main/java/nl/talsmasoftware/umldoclet/UMLDocletConfig.java:255 | The result starts with a dot. A dotted extension is kept, and any other gets one dot in front. |
| ConfigValues.WithLeadingDotIdempotent | src/main/java/nl/talsmasoftware/umldoclet/UMLDocletConfig.java:253-256 | Normalising an extension twice is normalising it once. |
| ConfigValues.UmlFileExtension | src/main/java/nl/talsmasoftware/umldoclet/UMLDocletConfig.java:253-256 | The extension always starts with a dot and defaults to `.puml`. |
| ConfigValues.UmlFileEncoding | src/main/java/nl/talsmasoftware/umldoclet/UMLDocletConfig.java:261-263 | The order is the stored value, then the parameter of the first `-docEncoding` standard option, then `UTF-8`. |
| ConfigValues.BasePath | src/main/java/nl/talsmasoftware/umldoclet/UMLDocletConfig.java:238-240 | The stored base path wins. Otherwise it is the working directory handed in. |
| ConfigValues.LevelForTable | src/main/java/nl/talsmasoftware/umldoclet/UMLDocletConfig.java:219-232 | The six aliases map as tabled. Any other name goes to `Level.parse` unchanged. |
| ConfigValues.ParseInt | src/main/java/nl/talsmasoftware/umldoclet/UMLDocletConfig.java:231 | `Integer.parseInt`, as `Level.parse` applies it: a result is within 32 bits and comes from an optionally signed run of digits. Digits that fit give their decimal value. |
| ConfigValues.ByValue | src/main/java/nl/talsmasoftware/umldoclet/UMLDocletConfig.java:231 | A number stands for the declared level with that `intValue`, or else for a new level with that value. |
| ConfigValues.Parse | src/main/java/nl/talsmasoftware/umldoclet/UMLDocletConfig.java:231 | `Level.parse` fails only on a name that is neither a declared name nor a number. A new level is made only from a number. |
| ConfigValues.ParseName | src/main/java/nl/talsmasoftware/umldoclet/UMLDocletConfig.java:231 | Round trip: each of the nine declared levels is parsed back from its name. |
| ConfigValues.AliasesAreDeclaredLevels | src/main/java/nl/talsmasoftware/umldoclet/UMLDocletConfig.java:219-231 | `ALL` and `TRACE` mean the same level as `FINEST`, `DEBUG` as `FINE`, `WARN` as `WARNING`, and `ERROR` and `FATAL` as `SEVERE`. |
| ConfigValues.NumericLevelNames | src/main/java/nl/talsmasoftware/umldoclet/UMLDocletConfig.java:231 | `800` is `INFO`, `42` makes a new level with value 42, and `VERBOSE` is refused. |
| ConfigValues.UmlLogLevel | src/main/java/nl/talsmasoftware/umldoclet/UMLDocletConfig.java:217-233 | The given text, upper-cased, is looked up in the alias table and otherwise parsed. Without the setting the level is `INFO`. |
| ConfigValues.LevelIgnoresCase | src/main/java/nl/talsmasoftware/umldoclet/UMLDocletConfig.java:217-218 | Names equal ignoring case give the same level. |
| ConfigValues.Construct | src/main/java/nl/talsmasoftware/umldoclet/UMLDocletConfig.java:137-172 | The constructor completes, with the configuration its options loop built, exactly when `umlLogLevel` of that configuration yields a level. Otherwise `initializeUmlLogging` throws. |
| ConfigValues.UnsetLevelConstructs | src/main/java/nl/talsmasoftware/umldoclet/UMLDocletConfig.java:494-506 | When no option names the log-level setting, the level is the default and the constructor completes. |
| ConfigValues.ValidOptionsChecked | src/main/java/nl/talsmasoftware/umldoclet/UMLDocletConfig.java:487-492 | `validOptions` throws exactly when the constructor does. Otherwise it returns the boolean that `DocletConfig.ValidOptions` computes. |
| ConfigValues.RefusedLevelThrows | src/main/java/nl/talsmasoftware/umldoclet/UMLDocletConfig.java:487-492 | A lone log-level option whose name `Level.parse` refuses passes validation and files nothing as invalid, yet `validOptions` throws. |
| ConfigValues.VerboseLevelThrows | src/main/java/nl/talsmasoftware/umldoclet/UMLDocletConfig.java:231 | `-umlLogLevel VERBOSE` is valid by the boolean reading, but `validOptions` throws. |
| BooleanSettings.BooleanTextRoundTrip | src/main/java/nl/talsmasoftware/umldoclet/UMLDocletConfig.java:87-89 | `Boolean.toString` of a boolean reads back as that boolean, trimmed or not. |
| BooleanSettings.Flag | src/main/java/nl/talsmasoftware/umldoclet/UMLDocletConfig.java:265-423 | A boolean accessor reads a given text as true only when it is `true` in some case, unpadded. A setting that was not given reads as its declared default. |
| BooleanSettings.DefaultFlag | src/main/java/nl/talsmasoftware/umldoclet/UMLDocletConfig.java:87-89 | A boolean setting that was not given reads as its declared default. |
| BooleanSettings.PaddedTrueAccepted | src/main/java/nl/talsmasoftware/umldoclet/UMLDocletConfig.java:119-122 | ` true` passes validation, because `validate` trims it. |
| BooleanSettings.PaddedTrueReadings | src/main/java/nl/talsmasoftware/umldoclet/UMLDocletConfig.java:273 | A stored ` true` reads false through `Boolean.valueOf` and true once trimmed. |
| BooleanSettings.PaddedTrueReadsFalse | src/main/java/nl/talsmasoftware/umldoclet/UMLDocletConfig.java:162 | The constructor accepts ` true` and stores it untrimmed, so the setting reads false. |
| BooleanSettings.TrimmedFlagOfText | src/main/java/nl/talsmasoftware/umldoclet/UMLDocletConfig.java:119-120 | The trimmed reading of a stored text is whether it lower-cases to `true`. |
| BooleanSettings.AcceptedFlagReadsBack | src/main/java/nl/talsmasoftware/umldoclet/UMLDocletConfig.java:119-122 | With the trim applied on reading, every accepted boolean option reads back as the boolean it spells. |
| BooleanSettings.UnpaddedReadingsAgree | src/main/java/nl/talsmasoftware/umldoclet/UMLDocletConfig.java:119-122 | When the text a setting resolves to has no padding, `Boolean.valueOf` and the trimmed reading agree. |
| BooleanSettings.IncludeMethodParams | src/main/java/nl/talsmasoftware/umldoclet/UMLDocletConfig.java:317-332 | Parameters are shown iff the names text or the types text is `true` in some case, unpadded. With neither setting given they are shown. |
| BooleanSettings.UnpaddedParamsAgree | src/main/java/nl/talsmasoftware/umldoclet/UMLDocletConfig.java:317-332 | Without padding, the source reading of `includeMethodParams` and the trimmed reading agree. |
| BooleanSettings.PaddedNamesHideParams | src/main/java/nl/talsmasoftware/umldoclet/UMLDocletConfig.java:317-332 | Names set to ` true` and types set to `false` hide parameters, though the trimmed reading would show them. |
| BooleanSettings.DefaultIncludeMethodParams | src/main/java/nl/talsmasoftware/umldoclet/UMLDocletConfig.java:317-332 | By default parameter names are off and parameter types are on, so parameters are included under both readings. |
| ClassFilter.IncludedRequirements | src/main/java/nl/talsmasoftware/umldoclet/UMLDocletConfig.java:430-446 | A class is included iff each visibility it has is enabled (and its inner variant too, for an inner class), and a deprecated class is included only when deprecated classes are. |
| ClassFilter.IncludeClass | src/main/java/nl/talsmasoftware/umldoclet/UMLDocletConfig.java:397-451 | A null document is excluded. Otherwise a class is included iff each visibility it has is enabled (for an inner class, its inner setting too), and a deprecated class only when deprecated classes are. Every setting is read through `Boolean.valueOf`. |
| ClassFilter.IncludedMonotonic | src/main/java/nl/talsmasoftware/umldoclet/UMLDocletConfig.java:432-446 | Turning more inclusion flags on never excludes a class that was included. |
| ClassFilter.PublicClassIncluded | src/main/java/nl/talsmasoftware/umldoclet/UMLDocletConfig.java:425-451 | A public class that is not deprecated is always included. |
| ClassFilter.TopLevelIgnoresInnerFlags | src/main/java/nl/talsmasoftware/umldoclet/UMLDocletConfig.java:431-442 | The inner-class flags do not matter for a top-level class. |
| ClassFilter.NullClassExcluded | src/main/java/nl/talsmasoftware/umldoclet/UMLDocletConfig.java:426-429 | A null class document is not included. |
| ClassFilter.UnpaddedClassSettingsAgree | src/main/java/nl/talsmasoftware/umldoclet/UMLDocletConfig.java:397-451 | Without padding in the seven settings, the source reading and the trimmed reading include the same classes. |
| ClassFilter.PaddedPrivateClassExcluded | src/main/java/nl/talsmasoftware/umldoclet/UMLDocletConfig.java:397-432 | With private classes set to ` true`, a private top-level class is still excluded, though the trimmed reading would include it. |
| ClassRenderer.New | src/main/java/nl/talsmasoftware/umldoclet/rendering/ClassRenderer.java:39-57 | A missing class document fails with `No class documentation provided.`. Otherwise the children are fields, constructors, concrete methods, then abstract methods. |
| ClassRenderer.AddFields | src/main/java/nl/talsmasoftware/umldoclet/rendering/ClassRenderer.java:42-44 | The loop appends one field child per field, in order. |
| ClassRenderer.AddConstructors | src/main/java/nl/talsmasoftware/umldoclet/rendering/ClassRenderer.java:45-47 | The loop appends one constructor child per constructor, in order. |
| ClassRenderer.AddMethods | src/main/java/nl/talsmasoftware/umldoclet/rendering/ClassRenderer.java:48-55 | Concrete methods go to the children and abstract ones to a side list, each in order. |
| ClassRenderer.SelectStep | src/main/java/nl/talsmasoftware/umldoclet/rendering/ClassRenderer.java:50-54 | One more method joins the list its abstractness selects. |
| ClassRenderer.SelectAgrees | src/main/java/nl/talsmasoftware/umldoclet/rendering/ClassRenderer.java:50 | Each selected method has the abstractness asked for. |
| ClassRenderer.OrderedByRank | src/main/java/nl/talsmasoftware/umldoclet/rendering/ClassRenderer.java:42-56 | Children are sorted: fields, then constructors, then concrete methods, then abstract methods. |
| ClassRenderer.SelectPartition | src/main/java/nl/talsmasoftware/umldoclet/rendering/ClassRenderer.java:49-55 | The concrete and abstract methods together are a permutation of all methods. |
| ClassRenderer.ChildCount | src/main/java/nl/talsmasoftware/umldoclet/rendering/ClassRenderer.java:42-56 | There is one child per field, constructor and method. |
| ClassRenderer.FieldChildrenBack | src/main/java/nl/talsmasoftware/umldoclet/rendering/ClassRenderer.java:42-44 | The field children give back exactly the fields. |
| ClassRenderer.ConstructorChildrenBack | src/main/java/nl/talsmasoftware/umldoclet/rendering/ClassRenderer.java:45-47 | The constructor children give back exactly the constructors. |
| ClassRenderer.MethodChildrenBack | src/main/java/nl/talsmasoftware/umldoclet/rendering/ClassRenderer.java:49-55 | The method children give back exactly the methods they were made from. |
| ClassRenderer.OrderedKeepsFields | src/main/java/nl/talsmasoftware/umldoclet/rendering/ClassRenderer.java:42-44 | The fields among the children are the class's fields, in order. |
| ClassRenderer.OrderedKeepsConstructors | src/main/java/nl/talsmasoftware/umldoclet/rendering/ClassRenderer.java:45-47 | The constructors among the children are the class's constructors, in order. |
| ClassRenderer.OrderedKeepsMethods | src/main/java/nl/talsmasoftware/umldoclet/rendering/ClassRenderer.java:48-56 | The methods among the children are the concrete ones in order, then the abstract ones in order. |
| ClassRenderer.NoAbstractMethodsKeepOrder | src/main/java/nl/talsmasoftware/umldoclet/rendering/ClassRenderer.java:48-56 | Without abstract methods the method order is the declared order. |
| ClassRenderer.UmlType | src/main/java/nl/talsmasoftware/umldoclet/rendering/ClassRenderer.java:59-64 | Enum beats interface, which beats abstract class, which beats class. Each keyword is returned iff its condition holds. |
| ClassRenderer.WriteTo | src/main/java/nl/talsmasoftware/umldoclet/rendering/ClassRenderer.java:66-71 | The type name is added to the encountered types. The text is the header `type name {`, then the children's text, then `}` and a blank line. |
| ClassRenderer.HeaderReadsBack | src/main/java/nl/talsmasoftware/umldoclet/rendering/ClassRenderer.java:69 | Equal headers have the same UML type and the same qualified name. |
| ClassRenderer.WriteAllRecordsNames | src/main/java/nl/talsmasoftware/umldoclet/rendering/ClassRenderer.java:67 | Writing several classes records exactly their names among the encountered types. |
| CommandBoxStart.SpaceRun | src/plantuml-asl/src/net/sourceforge/plantuml/sequencediagram/command/CommandBoxStart.java:59 | A greedy `\s*` takes an all-space prefix and stops at a non-space. |
| CommandBoxStart.RunWithout | src/plantuml-asl/src/net/sourceforge/plantuml/sequencediagram/command/CommandBoxStart.java:60-63 | A greedy `[^c]*` takes a prefix without `c` and stops at a `c`. |
| CommandBoxStart.Recognise | src/plantuml-asl/src/net/sourceforge/plantuml/sequencediagram/command/CommandBoxStart.java:54-66 | Only a line that starts with `box` in some case can match. `box` alone is a box with neither name nor colour. |
| CommandBoxStart.QuotedSound | src/plantuml-asl/src/net/sourceforge/plantuml/sequencediagram/command/CommandBoxStart.java:58-60 | What the quoted alternative captures is a well-formed decomposition of the line. |
| CommandBoxStart.BareSound | src/plantuml-asl/src/net/sourceforge/plantuml/sequencediagram/command/CommandBoxStart.java:61-63 | What the bare alternative captures, including a space given back, is a well-formed decomposition of the line. |
| CommandBoxStart.NoNameSound | src/plantuml-asl/src/net/sourceforge/plantuml/sequencediagram/command/CommandBoxStart.java:64-65 | A line without the optional group decomposes into spaces and a colour. |
| CommandBoxStart.RecogniseSound | src/plantuml-asl/src/net/sourceforge/plantuml/sequencediagram/command/CommandBoxStart.java:54-66 | Whatever the matcher returns is a well-formed decomposition that spells the line back. |
| CommandBoxStart.QuotedFirst | src/plantuml-asl/src/net/sourceforge/plantuml/sequencediagram/command/CommandBoxStart.java:57-60 | Round trip: a line built from a quoted name is read back as exactly that decomposition. |
| CommandBoxStart.BareMatches | src/plantuml-asl/src/net/sourceforge/plantuml/sequencediagram/command/CommandBoxStart.java:61-63 | A line built from a bare name is matched by the bare alternative. |
| CommandBoxStart.RecogniseComplete | src/plantuml-asl/src/net/sourceforge/plantuml/sequencediagram/command/CommandBoxStart.java:54-66 | Every line the grammar allows is recognised. |
| CommandBoxStart.ExecuteArg | src/plantuml-asl/src/net/sourceforge/plantuml/sequencediagram/command/CommandBoxStart.java:73-84 | With a box pending the command fails with `Box cannot be nested` and changes nothing. Otherwise it succeeds and records one box start with the title and the colour. |
| CommandBoxStart.TitleIsCapturedName | src/plantuml-asl/src/net/sourceforge/plantuml/sequencediagram/command/CommandBoxStart.java:77-81 | The title is the captured name, and it is empty only when no name was captured. |
| CommandBoxStart.ExecuteCountsOne | src/plantuml-asl/src/net/sourceforge/plantuml/sequencediagram/command/CommandBoxStart.java:74-83 | A command adds one box start when it succeeds and none when it fails. |
| CommandBoxStart.PlainBox | src/plantuml-asl/src/net/sourceforge/plantuml/sequencediagram/command/CommandBoxStart.java:77-82 | `box` alone opens a box with the empty title and no colour. |
| CommandBoxStart.LabelledBox | src/plantuml-asl/src/net/sourceforge/plantuml/sequencediagram/command/CommandBoxStart.java:55-82 | `box "Label" #FF0000` opens a box titled `Label` with that colour. |
| CommandBoxStart.NestedBoxRefused | src/plantuml-asl/src/net/sourceforge/plantuml/sequencediagram/command/CommandBoxStart.java:74-76 | A recognised `box` line is refused while a box is pending. |
| CommandBoxStart.TwoSpacesMakeATitle | src/plantuml-asl/src/net/sourceforge/plantuml/sequencediagram/command/CommandBoxStart.java:61-64 | `box` followed by two spaces captures a one-space bare name. |
| NewpageTile.New | src/plantuml-asl/src/net/sourceforge/plantuml/sequencediagram/teoz/NewpageTile.java:49-52 | The tile reports the event and origin it was built with. Its stored Y starts at 0. |
| NewpageTile.PointGeometry | src/plantuml-asl/src/net/sourceforge/plantuml/sequencediagram/teoz/NewpageTile.java:45-70 | The preferred height and Y point are 0. Minimum and maximum X are both the origin. |
| NewpageTile.Apply | src/plantuml-asl/src/net/sourceforge/plantuml/sequencediagram/teoz/NewpageTile.java:54-76 | `callbackY` stores its value and nothing else. `drawU` and `addConstraints` change nothing. |
| NewpageTile.Run | src/plantuml-asl/src/net/sourceforge/plantuml/sequencediagram/teoz/NewpageTile.java:49-84 | No sequence of calls changes the event or the X extent. |
| NewpageTile.RunReadsLastWrite | src/plantuml-asl/src/net/sourceforge/plantuml/sequencediagram/teoz/NewpageTile.java:72-80 | After any calls, `getCallbackY` is the last value written, or the earlier Y when nothing was written. |
| NewpageTile.LastWriteWins | src/plantuml-asl/src/net/sourceforge/plantuml/sequencediagram/teoz/NewpageTile.java:74-80 | A final `callbackY(y)` makes `getCallbackY` return `y`. |
| NewpageTile.NoCallbackKeepsY | src/plantuml-asl/src/net/sourceforge/plantuml/sequencediagram/teoz/NewpageTile.java:54-62 | Calls other than `callbackY` keep the stored Y. |

## Left out

- The UML log handler, logger levels, `close`, `version` and the properties file are I/O and logging.
- `DocletConfig.ValidOptions` and `DocletConfig.NewConfig` stop before `initializeUmlLogging`. They return a result where the constructor, and so `validOptions`, throws on a log level that `Level.parse` refuses. `ConfigValues.Construct` and `ConfigValues.ValidOptionsChecked` model that exception.
- The canonical base path is I/O; it is a parameter of `ConfigValues.BasePath`.
- `reporter.printError` is not modelled.
- `Standard.optionLength` and `Standard.validOptions` belong to the standard doclet; they are parameters.
- `ConfigValues.Parse` covers the nine standard level names and ASCII integers. Localised level names, non-ASCII digits and levels registered by other code are left out. A rejected name is a `Failure` carrying the message, not a thrown exception.
- `OptionValues.Cuts` is the cutting before `String.split` drops trailing empty strings; only `OptionValues.Pieces` is the split itself.
- `AbstractSetting.matches` and the setting classes are not shown; matching is the parameter `matches`.
- `null` option arrays cannot be expressed with sequences. `DocletSetting.ForOption` models only the empty-array branch of the null-or-empty guard.
- Case folding covers ASCII only. `Locale.ENGLISH` folding of other letters is not modelled.
- The synchronized memoisation in `excludedReferences` is concurrency. `ConfigValues.ExcludedReferences` recomputes the value.
- `indentation` (`Integer.valueOf`) is not modelled, nor is `toString`.
- Most boolean accessors are not modelled one by one: each is a `Flag` of its setting. The defaults of all seven class-inclusion flags are not stated as one lemma. `BooleanSettings.DefaultFlag` states them per setting.
- `ClassRenderer.WriteTo`: what `writeChildrenTo` writes is the text parameter `childrenText`. `IndentingPrintWriter` indentation is not modelled, and a new line is `\n`.
- The javadoc API is not shown. A class document is a record of flags and member lists. `isDeprecated` is a flag, and a containing class is the `isInner` flag.
- Regular-expression compilation is not shown. `box` is matched in any case, as PlantUML compiles command patterns case-insensitively.
- The `%g` quote class is modelled as `"` only.
- Colour syntax belongs to `ColorParser`, which is not part of this model. It is the parameter `isColor`, assumed only to accept texts starting with `#`.
- `CommandBoxStart.ExecuteArg`: `Display.getWithNewlines` is not modelled; the title is the captured text. What `SequenceDiagram.boxStart` does to the pending flag is not shown: the flag after a successful call is the parameter `pendingAfter`, and nothing is promised about it.
- `NewpageTile`: the `Real` constraint machinery and `TileArguments` are not shown. The origin and the `Newpage` event are type parameters, and coordinates are `real`.
- `TimingNote` is Creole rendering, skin lookups and floating-point text measurement, none of which is visible.

## Findings

| source | as written | input that shows it | evidently intended | confidence | as-written member | corrected member |
|---|---|---|---|---|---|---|
| src/main/java/nl/talsmasoftware/umldoclet/UMLDocletConfig.java:119-122 | `validate` checks the trimmed parameter. The constructor (line 162) stores it untrimmed, and `Boolean.valueOf` does not trim. | `-umlIncludePrivateFields " true"` validates, then reads as false | an accepted boolean option reads as the boolean it spells | medium, not executed | BooleanSettings.PaddedTrueReadsFalse | BooleanSettings.AcceptedFlagReadsBack |

`BooleanSettings.Flag` is the reading as written, and `BooleanSettings.IncludeMethodParams` and `ClassFilter.IncludeClass` use it, as the source does. `BooleanSettings.TrimmedFlag` is the corrected reading. `BooleanSettings.TrimmedIncludeMethodParams` and `ClassFilter.TrimmedIncludeClass` are the corrected accessors. `BooleanSettings.UnpaddedParamsAgree` and `ClassFilter.UnpaddedClassSettingsAgree` show the two readings agree when the settings carry no padding. `BooleanSettings.PaddedNamesHideParams` and `ClassFilter.PaddedPrivateClassExcluded` show where they part.
