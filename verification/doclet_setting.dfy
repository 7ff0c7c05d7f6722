/**
 * The enumeration of UML doclet settings (`UMLDocletConfig.Setting`): each
 * setting has a typed delegate that recognises its option name, a default
 * value and an option length, and can look itself up by option name and
 * validate the strings given for it.
 */
module DocletSetting {
  import opened Wrappers
  import opened JavaStrings

  datatype Setting =
    | UmlLogLevel | UmlIndentation | UmlBasePath | UmlFileExtension | UmlFileEncoding
    | UmlSkipStandardDoclet
    | UmlIncludePrivateFields | UmlIncludePackagePrivateFields | UmlIncludeProtectedFields
    | UmlIncludePublicFields | UmlIncludeDeprecatedFields | UmlIncludeFieldTypes
    | UmlIncludeMethodParamNames | UmlIncludeMethodParamTypes | UmlIncludeMethodReturntypes
    | UmlIncludeConstructors | UmlIncludeDefaultConstructors
    | UmlIncludePrivateMethods | UmlIncludePackagePrivateMethods | UmlIncludeProtectedMethods
    | UmlIncludePublicMethods | UmlIncludeDeprecatedMethods | UmlIncludeAbstractSuperclassMethods
    | UmlIncludePrivateClasses | UmlIncludePackagePrivateClasses | UmlIncludeProtectedClasses
    | UmlIncludeDeprecatedClasses
    | UmlIncludePrivateInnerClasses | UmlIncludePackagePrivateInnerClasses | UmlIncludeProtectedInnerClasses
    | UmlExcludedReferences | UmlIncludeOverridesFromExcludedReferences | UmlCommand

  /** The declaration order of the enumeration, which `Setting.values()` returns. */
  const Values: seq<Setting> := [
    UmlLogLevel, UmlIndentation, UmlBasePath, UmlFileExtension, UmlFileEncoding,
    UmlSkipStandardDoclet,
    UmlIncludePrivateFields, UmlIncludePackagePrivateFields, UmlIncludeProtectedFields,
    UmlIncludePublicFields, UmlIncludeDeprecatedFields, UmlIncludeFieldTypes,
    UmlIncludeMethodParamNames, UmlIncludeMethodParamTypes, UmlIncludeMethodReturntypes,
    UmlIncludeConstructors, UmlIncludeDefaultConstructors,
    UmlIncludePrivateMethods, UmlIncludePackagePrivateMethods, UmlIncludeProtectedMethods,
    UmlIncludePublicMethods, UmlIncludeDeprecatedMethods, UmlIncludeAbstractSuperclassMethods,
    UmlIncludePrivateClasses, UmlIncludePackagePrivateClasses, UmlIncludeProtectedClasses,
    UmlIncludeDeprecatedClasses,
    UmlIncludePrivateInnerClasses, UmlIncludePackagePrivateInnerClasses, UmlIncludeProtectedInnerClasses,
    UmlExcludedReferences, UmlIncludeOverridesFromExcludedReferences, UmlCommand
  ]

  /**
   * The kind of typed setting a constant delegates option-name matching and
   * parsing to, with the declared default of a boolean setting.
   */
  datatype Delegate =
    | StringSetting
    | IntegerSetting
    | BooleanSetting(defaultValue: bool)
    | ListSetting

  function BooleanToString(b: bool): string {
    if b then "true" else "false"
  }

  /** The delegate each constant is declared with. */
  function DelegateOf(s: Setting): Delegate {
    match s
    case UmlLogLevel => StringSetting
    case UmlIndentation => IntegerSetting
    case UmlBasePath => StringSetting
    case UmlFileExtension => StringSetting
    case UmlFileEncoding => StringSetting
    case UmlSkipStandardDoclet => BooleanSetting(false)
    case UmlIncludePrivateFields => BooleanSetting(false)
    case UmlIncludePackagePrivateFields => BooleanSetting(false)
    case UmlIncludeProtectedFields => BooleanSetting(true)
    case UmlIncludePublicFields => BooleanSetting(true)
    case UmlIncludeDeprecatedFields => BooleanSetting(false)
    case UmlIncludeFieldTypes => BooleanSetting(true)
    case UmlIncludeMethodParamNames => BooleanSetting(false)
    case UmlIncludeMethodParamTypes => BooleanSetting(true)
    case UmlIncludeMethodReturntypes => BooleanSetting(true)
    case UmlIncludeConstructors => BooleanSetting(true)
    case UmlIncludeDefaultConstructors => BooleanSetting(false)
    case UmlIncludePrivateMethods => BooleanSetting(false)
    case UmlIncludePackagePrivateMethods => BooleanSetting(false)
    case UmlIncludeProtectedMethods => BooleanSetting(true)
    case UmlIncludePublicMethods => BooleanSetting(true)
    case UmlIncludeDeprecatedMethods => BooleanSetting(false)
    case UmlIncludeAbstractSuperclassMethods => BooleanSetting(true)
    case UmlIncludePrivateClasses => BooleanSetting(false)
    case UmlIncludePackagePrivateClasses => BooleanSetting(true)
    case UmlIncludeProtectedClasses => BooleanSetting(true)
    case UmlIncludeDeprecatedClasses => BooleanSetting(false)
    case UmlIncludePrivateInnerClasses => BooleanSetting(false)
    case UmlIncludePackagePrivateInnerClasses => BooleanSetting(false)
    case UmlIncludeProtectedInnerClasses => BooleanSetting(false)
    case UmlExcludedReferences => ListSetting
    case UmlIncludeOverridesFromExcludedReferences => BooleanSetting(false)
    case UmlCommand => ListSetting
  }

  /** The option name the constant's delegate is constructed with. */
  function OptionName(s: Setting): string {
    match s
    case UmlLogLevel => "umlLogLevel"
    case UmlIndentation => "umlIndentation"
    case UmlBasePath => "umlBasePath"
    case UmlFileExtension => "umlFileExtension"
    case UmlFileEncoding => "umlFileEncoding"
    case UmlSkipStandardDoclet => "umlSkipStandardDoclet"
    case UmlIncludePrivateFields => "umlIncludePrivateFields"
    case UmlIncludePackagePrivateFields => "umlIncludePackagePrivateFields"
    case UmlIncludeProtectedFields => "umlIncludeProtectedFields"
    case UmlIncludePublicFields => "umlIncludePublicFields"
    case UmlIncludeDeprecatedFields => "umlIncludeDeprecatedFields"
    case UmlIncludeFieldTypes => "umlIncludeFieldTypes"
    case UmlIncludeMethodParamNames => "umlIncludeMethodParamNames"
    case UmlIncludeMethodParamTypes => "umlIncludeMethodParamTypes"
    case UmlIncludeMethodReturntypes => "umlIncludeMethodReturntypes"
    case UmlIncludeConstructors => "umlIncludeConstructors"
    case UmlIncludeDefaultConstructors => "umlIncludeDefaultConstructors"
    case UmlIncludePrivateMethods => "umlIncludePrivateMethods"
    case UmlIncludePackagePrivateMethods => "umlIncludePackagePrivateMethods"
    case UmlIncludeProtectedMethods => "umlIncludeProtectedMethods"
    case UmlIncludePublicMethods => "umlIncludePublicMethods"
    case UmlIncludeDeprecatedMethods => "umlIncludeDeprecatedMethods"
    case UmlIncludeAbstractSuperclassMethods => "umlIncludeAbstractSuperclassMethods"
    case UmlIncludePrivateClasses => "umlIncludePrivateClasses"
    case UmlIncludePackagePrivateClasses => "umlIncludePackagePrivateClasses"
    case UmlIncludeProtectedClasses => "umlIncludeProtectedClasses"
    case UmlIncludeDeprecatedClasses => "umlIncludeDeprecatedClasses"
    case UmlIncludePrivateInnerClasses => "umlIncludePrivateInnerClasses"
    case UmlIncludePackagePrivateInnerClasses => "umlIncludePackagePrivateInnerClasses"
    case UmlIncludeProtectedInnerClasses => "umlIncludeProtectedInnerClasses"
    case UmlExcludedReferences => "umlExcludedReferences"
    case UmlIncludeOverridesFromExcludedReferences => "umlIncludeOverridesFromExcludedReferences"
    case UmlCommand => "umlCommand"
  }

  /** The constants declared with a list delegate. */
  predicate IsList(s: Setting) {
    s.UmlExcludedReferences? || s.UmlCommand?
  }

  /** The constants declared with an integer delegate. */
  predicate IsInteger(s: Setting) {
    s.UmlIndentation?
  }

  /** The constants declared with a plain string delegate. */
  predicate IsText(s: Setting) {
    s.UmlLogLevel? || s.UmlBasePath? || s.UmlFileExtension? || s.UmlFileEncoding?
  }

  /** The constants declared through the boolean constructor: all the others. */
  predicate IsBoolean(s: Setting) {
    !IsList(s) && !IsInteger(s) && !IsText(s)
  }

  /** The boolean constants whose declared default is `true`. */
  predicate DefaultsToTrue(s: Setting) {
    match s
    case UmlIncludeProtectedFields | UmlIncludePublicFields | UmlIncludeFieldTypes
       | UmlIncludeMethodParamTypes | UmlIncludeMethodReturntypes | UmlIncludeConstructors
       | UmlIncludeProtectedMethods | UmlIncludePublicMethods | UmlIncludeAbstractSuperclassMethods
       | UmlIncludePackagePrivateClasses | UmlIncludeProtectedClasses => true
    case _ => false
  }

  /** The kind predicates and the boolean defaults agree with the declared delegates. */
  lemma DelegateKinds(s: Setting)
    ensures IsList(s) <==> DelegateOf(s).ListSetting?
    ensures IsInteger(s) <==> DelegateOf(s).IntegerSetting?
    ensures IsText(s) <==> DelegateOf(s).StringSetting?
    ensures IsBoolean(s) <==> DelegateOf(s).BooleanSetting?
    ensures IsBoolean(s) ==> DelegateOf(s).defaultValue == DefaultsToTrue(s)
  {
  }

  /**
   * The default value: the text of the boolean default for a boolean
   * constant, the declared string otherwise (`null` for the base path).
   */
  function DefaultValue(s: Setting): Option<string> {
    if IsBoolean(s) then Some(BooleanToString(DefaultsToTrue(s)))
    else DeclaredDefault(s)
  }

  /** The default string declared for a constant that is not a boolean. */
  function DeclaredDefault(s: Setting): Option<string> {
    match s
    case UmlLogLevel => Some("INFO")
    case UmlIndentation => Some("-1")
    case UmlFileExtension => Some(".puml")
    case UmlFileEncoding => Some("UTF-8")
    case UmlExcludedReferences => Some("java.lang.Object, java.lang.Enum")
    case UmlCommand => Some("")
    case _ => None
  }

  /**
   * The number of strings an option of this setting consists of. Every
   * constant goes through the two-argument constructor, which declares one
   * option name and one parameter string.
   */
  function OptionLength(s: Setting): int {
    2
  }

  /**
   * `AbstractSetting.matches(String)` is not part of this model: every
   * operation that looks a setting up by option name takes it as this
   * parameter.
   */
  type Matcher = (Setting, string) -> bool

  /** Every constant is listed once in the declaration order. */
  lemma ValuesComplete(s: Setting)
    ensures s in Values
  {
  }

  /** Index of the first setting in `settings` whose delegate matches `name`. */
  function FirstMatch(matches: Matcher, settings: seq<Setting>, name: string): (r: Option<nat>)
    ensures r.Some? ==> r.value < |settings| && matches(settings[r.value], name)
    ensures r.Some? ==> forall k :: 0 <= k < r.value ==> !matches(settings[k], name)
    ensures r.None? ==> forall k :: 0 <= k < |settings| ==> !matches(settings[k], name)
    decreases |settings|
  {
    if settings == [] then None
    else if matches(settings[0], name) then Some(0)
    else match FirstMatch(matches, settings[1..], name)
      case None => None
      case Some(k) => Some(k + 1)
  }

  /**
   * `Setting.forOption`: no setting for an empty option array, otherwise the
   * first setting in declaration order whose delegate matches the option name.
   */
  function ForOption(matches: Matcher, option: seq<string>): (r: Option<Setting>)
    ensures |option| == 0 ==> r.None?
    ensures r.Some? ==> matches(r.value, option[0])
    ensures r.Some? ==> exists k :: 0 <= k < |Values| && Values[k] == r.value &&
                          (forall j :: 0 <= j < k ==> !matches(Values[j], option[0]))
    ensures |option| > 0 && r.None? ==> forall s :: !matches(s, option[0])
  {
    if |option| == 0 then None
    else
      match FirstMatch(matches, Values, option[0])
      case None =>
        assert forall s :: !matches(s, option[0]) by {
          forall s
            ensures !matches(s, option[0])
          {
            ValuesComplete(s);
          }
        }
        None
      case Some(k) => Some(Values[k])
  }

  /** Why `validate` refuses an option. */
  datatype ValidationError =
    | WrongArity(expected: int, received: nat)
    | NotBoolean(value: string)
    | NotNumeric(value: string)

  /** The value `validate` accepts for a boolean delegate: `true` or `false` in any case. */
  predicate IsBooleanText(value: string) {
    LowerCase(value) == "true" || LowerCase(value) == "false"
  }

  /** The value `validate` accepts for an integer delegate: one or more ASCII digits (`\d+`). */
  predicate IsDigits(value: string) {
    |value| > 0 && forall i :: 0 <= i < |value| ==> '0' <= value[i] <= '9'
  }

  /**
   * `Setting.validate`: the option must have exactly the setting's length,
   * and the trimmed parameter must be a boolean text for a boolean delegate
   * and a digit string for an integer delegate. A valid option comes back
   * unchanged.
   */
  function Validate(s: Setting, optionValue: seq<string>): (r: Result<seq<string>, ValidationError>)
    ensures r.Success? ==> r.value == optionValue && |optionValue| == OptionLength(s)
    ensures |optionValue| != OptionLength(s) ==> r == Failure(WrongArity(OptionLength(s), |optionValue|))
    ensures |optionValue| == OptionLength(s) && IsBoolean(s) ==>
      (r.Success? <==> IsBooleanText(Trim(optionValue[1])))
    ensures |optionValue| == OptionLength(s) && IsInteger(s) ==>
      (r.Success? <==> IsDigits(Trim(optionValue[1])))
    ensures |optionValue| == OptionLength(s) && (IsText(s) || IsList(s)) ==> r.Success?
  {
    if OptionLength(s) != |optionValue| then
      Failure(WrongArity(OptionLength(s), |optionValue|))
    else
      var value := if OptionLength(s) > 1 then Some(Trim(optionValue[1])) else None;
      if IsBoolean(s) && value.Some? && !IsBooleanText(value.value) then
        Failure(NotBoolean(value.value))
      else if IsInteger(s) && value.Some? && !IsDigits(value.value) then
        Failure(NotNumeric(value.value))
      else
        Success(optionValue)
  }

  /** A user-supplied `-1` is refused for the indentation, even though it is that setting's default. */
  lemma NegativeIndentationRefused(name: string)
    ensures Validate(UmlIndentation, [name, "-1"]) == Failure(NotNumeric("-1"))
    ensures DefaultValue(UmlIndentation) == Some("-1")
  {
    assert Trim("-1") == "-1";
  }

  lemma BooleanTextAccepted(b: bool)
    ensures IsBooleanText(Trim(BooleanToString(b)))
  {
    TrimUnpadded(BooleanToString(b));
    assert LowerCase("true") == "true";
    assert LowerCase("false") == "false";
  }

  /** Every boolean setting accepts its own default text as a value. */
  lemma BooleanDefaultsValidate(s: Setting, name: string)
    requires DelegateOf(s).BooleanSetting?
    ensures DefaultValue(s) == Some(BooleanToString(DelegateOf(s).defaultValue))
    ensures Validate(s, [name, DefaultValue(s).value]).Success?
  {
    DelegateKinds(s);
    BooleanTextAccepted(DelegateOf(s).defaultValue);
  }
}
