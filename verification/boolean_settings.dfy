/**
 * The boolean settings of `UMLDocletConfig`, read through `Boolean.valueOf`.
 */
module BooleanSettings {
  import opened Wrappers
  import opened JavaStrings
  import opened OptionValues
  import opened DocletSetting
  import opened DocletConfig
  import opened ConfigValues

  /** `Boolean.valueOf(String)`: true exactly for `true` in any case; `null` is false. */
  predicate BooleanValueOf(v: Option<string>) {
    v.Some? && EqualsIgnoreCase(v.value, "true")
  }

  /** The boolean a text spells when read the way `validate` checks it: trimmed, in any case. */
  predicate TrimmedValueOf(v: Option<string>) {
    v.Some? && EqualsIgnoreCase(Trim(v.value), "true")
  }

  /** The text of a boolean reads back as that boolean, trimmed or not. */
  lemma BooleanTextRoundTrip(b: bool)
    ensures BooleanValueOf(Some(BooleanToString(b))) == b
    ensures TrimmedValueOf(Some(BooleanToString(b))) == b
  {
    TrimUnpadded(BooleanToString(b));
    assert LowerCase("true") == "true";
    assert LowerCase("false") == "false";
  }

  /**
   * A boolean setting as the source reads it, `Boolean.valueOf(stringValue(setting))`:
   * a given text counts as true only when it is `true` in some case, with no
   * padding; a setting that was not given reads as its declared default.
   */
  function Flag(cfg: Config, s: Setting): (r: bool)
    ensures s in cfg.values && cfg.values[s].Text? ==> (r <==> EqualsIgnoreCase(cfg.values[s].text, "true"))
    ensures s !in cfg.values && IsBoolean(s) ==> r == DefaultsToTrue(s)
  {
    NoNamesNoFallback(cfg, s);
    if s !in cfg.values && IsBoolean(s) then
      assert StringValue(cfg, s, []) == Some(BooleanToString(DefaultsToTrue(s)));
      BooleanTextRoundTrip(DefaultsToTrue(s));
      BooleanValueOf(StringValue(cfg, s, []))
    else
      BooleanValueOf(StringValue(cfg, s, []))
  }

  /** A boolean setting read with the parameter trimmed, as `validate` reads it. */
  predicate TrimmedFlag(cfg: Config, s: Setting) {
    TrimmedValueOf(StringValue(cfg, s, []))
  }

  /** A boolean setting that was not given reads as its declared default, trimmed or not. */
  lemma DefaultFlag(cfg: Config, s: Setting)
    requires IsBoolean(s) && s !in cfg.values
    ensures Flag(cfg, s) == DefaultsToTrue(s)
    ensures TrimmedFlag(cfg, s) == DefaultsToTrue(s)
  {
    assert StringValue(cfg, s, []) == Some(BooleanToString(DefaultsToTrue(s)));
    BooleanTextRoundTrip(DefaultsToTrue(s));
  }

  /** ` true` passes validation for a boolean setting: `validate` trims it first. */
  lemma PaddedTrueAccepted(name: string)
    ensures Validate(UmlIncludePrivateFields, [name, " true"]).Success?
  {
    assert Trim(" true") == "true" by {
      assert Trim(" true") == Trim("true");
      TrimUnpadded("true");
    }
    assert LowerCase("true") == "true";
  }

  /** A stored ` true` spells true when trimmed, but `Boolean.valueOf` reads it as false. */
  lemma PaddedTrueReadings(cfg: Config, s: Setting)
    requires s in cfg.values && cfg.values[s] == Text(" true")
    ensures !Flag(cfg, s) && TrimmedFlag(cfg, s)
  {
    assert StringValue(cfg, s, []) == Some(" true");
    assert Trim(" true") == "true" by {
      assert Trim(" true") == Trim("true");
      TrimUnpadded("true");
    }
    assert LowerCase(" true")[0] == ' ';
  }

  /**
   * `validate` checks the trimmed parameter but the constructor stores the
   * parameter as given, and `Boolean.valueOf` does not trim: an accepted
   * ` true` reads as false.
   */
  lemma PaddedTrueReadsFalse(matches: Matcher, name: string)
    requires ForOption(matches, [name, " true"]) == Some(UmlIncludePrivateFields)
    ensures Validate(UmlIncludePrivateFields, [name, " true"]).Success?
    ensures var cfg := NewConfig(matches, [[name, " true"]]);
      UmlIncludePrivateFields in cfg.values && cfg.values[UmlIncludePrivateFields] == Text(" true") &&
      !Flag(cfg, UmlIncludePrivateFields) && TrimmedFlag(cfg, UmlIncludePrivateFields)
  {
    PaddedTrueAccepted(name);
    SingleTextStored(matches, [name, " true"], UmlIncludePrivateFields);
    PaddedTrueReadings(NewConfig(matches, [[name, " true"]]), UmlIncludePrivateFields);
  }

  /** A stored text reads, trimmed, as true exactly when it trims to `true` in some case. */
  lemma TrimmedFlagOfText(cfg: Config, s: Setting, v: string)
    requires s in cfg.values && cfg.values[s] == Text(v)
    ensures TrimmedFlag(cfg, s) == (LowerCase(Trim(v)) == "true")
  {
    assert StringValue(cfg, s, []) == Some(v);
    assert LowerCase("true") == "true";
  }

  /** Every parameter `validate` accepts for a boolean setting reads back, trimmed, as the boolean it spells. */
  lemma AcceptedFlagReadsBack(matches: Matcher, options: seq<seq<string>>, option: seq<string>, s: Setting)
    requires ForOption(matches, option) == Some(s) && IsBoolean(s)
    requires Validate(s, option).Success?
    ensures |option| == 2
    ensures var cfg := NewConfig(matches, options + [option]);
      TrimmedFlag(cfg, s) == (LowerCase(Trim(option[1])) == "true")
      && (TrimmedFlag(cfg, s) || LowerCase(Trim(option[1])) == "false")
  {
    LastTextWins(matches, options, option, s);
    TrimmedFlagOfText(NewConfig(matches, options + [option]), s, option[1]);
  }

  /** The text a setting resolves to has no blank at either end, so `Boolean.valueOf` and `validate` read it alike. */
  predicate Unpadded(cfg: Config, s: Setting) {
    var v := StringValue(cfg, s, []);
    v.Some? ==> Trim(v.value) == v.value
  }

  /** Without padding, the source's reading and the trimmed reading agree. */
  lemma UnpaddedReadingsAgree(cfg: Config, s: Setting)
    requires Unpadded(cfg, s)
    ensures Flag(cfg, s) == TrimmedFlag(cfg, s)
  {
  }

  /**
   * `includeMethodParams`: parameters are shown when parameter names or
   * parameter types are, each read through `Boolean.valueOf`.
   */
  function IncludeMethodParams(cfg: Config): (r: bool)
    ensures UmlIncludeMethodParamNames in cfg.values && cfg.values[UmlIncludeMethodParamNames].Text? &&
            UmlIncludeMethodParamTypes in cfg.values && cfg.values[UmlIncludeMethodParamTypes].Text? ==>
      (r <==> EqualsIgnoreCase(cfg.values[UmlIncludeMethodParamNames].text, "true")
              || EqualsIgnoreCase(cfg.values[UmlIncludeMethodParamTypes].text, "true"))
    ensures UmlIncludeMethodParamNames !in cfg.values && UmlIncludeMethodParamTypes !in cfg.values ==> r
  {
    Flag(cfg, UmlIncludeMethodParamNames) || Flag(cfg, UmlIncludeMethodParamTypes)
  }

  /** `includeMethodParams` with each setting read trimmed, as `validate` checks it. */
  predicate TrimmedIncludeMethodParams(cfg: Config) {
    TrimmedFlag(cfg, UmlIncludeMethodParamNames) || TrimmedFlag(cfg, UmlIncludeMethodParamTypes)
  }

  /** Without padding in either setting, the two readings of `includeMethodParams` agree. */
  lemma UnpaddedParamsAgree(cfg: Config)
    requires Unpadded(cfg, UmlIncludeMethodParamNames) && Unpadded(cfg, UmlIncludeMethodParamTypes)
    ensures IncludeMethodParams(cfg) == TrimmedIncludeMethodParams(cfg)
  {
    UnpaddedReadingsAgree(cfg, UmlIncludeMethodParamNames);
    UnpaddedReadingsAgree(cfg, UmlIncludeMethodParamTypes);
  }

  /** A padded ` true` for parameter names, with types off, hides parameters although it validates. */
  lemma PaddedNamesHideParams(cfg: Config)
    requires UmlIncludeMethodParamNames in cfg.values && cfg.values[UmlIncludeMethodParamNames] == Text(" true")
    requires UmlIncludeMethodParamTypes in cfg.values && cfg.values[UmlIncludeMethodParamTypes] == Text("false")
    ensures !IncludeMethodParams(cfg) && TrimmedIncludeMethodParams(cfg)
  {
    PaddedTrueReadings(cfg, UmlIncludeMethodParamNames);
    assert LowerCase("false")[0] == 'f';
  }

  /** By default parameter types, and therefore parameters, are shown, whichever reading is used. */
  lemma DefaultIncludeMethodParams(cfg: Config)
    requires UmlIncludeMethodParamNames !in cfg.values && UmlIncludeMethodParamTypes !in cfg.values
    ensures IncludeMethodParams(cfg) && TrimmedIncludeMethodParams(cfg)
    ensures !Flag(cfg, UmlIncludeMethodParamNames) && Flag(cfg, UmlIncludeMethodParamTypes)
  {
    DefaultFlag(cfg, UmlIncludeMethodParamNames);
    DefaultFlag(cfg, UmlIncludeMethodParamTypes);
  }
}
