/**
 * The doclet configuration (`UMLDocletConfig`): the constructor that sorts
 * the command-line options into explicit settings, standard options and
 * invalid options, and the accessors that resolve a setting's value from
 * them.
 */
module DocletConfig {
  import opened Wrappers
  import opened JavaStrings
  import opened OptionValues
  import opened DocletSetting
  import opened Javadoc

  /** What the configuration map holds for a setting: the option's parameter, or the items gathered for a list setting. */
  datatype Value = Text(text: string) | Items(items: seq<string>)

  /**
   * The configuration: the explicitly given settings, and the options that
   * matched no setting (standard options) or were refused (invalid options),
   * each group in command-line order.
   */
  datatype Config = Config(
    values: map<Setting, Value>,
    standardOptions: seq<seq<string>>,
    invalidOptions: seq<seq<string>>)

  /** List settings hold items, and only tokens `split` can produce; every other setting holds text. */
  predicate WellFormed(cfg: Config) {
    forall s :: s in cfg.values ==>
      (IsList(s) <==> cfg.values[s].Items?) &&
      (cfg.values[s].Items? ==> AllTokens(cfg.values[s].items))
  }

  // ---------------------------------------------------------------------------
  // The constructor
  // ---------------------------------------------------------------------------

  /** How the constructor treats one option, judged on the option alone. */
  datatype Outcome = Standard | Invalid | Accepted(setting: Setting, value: Value)

  /**
   * How an option is handled given the setting `forOption` found for it. An
   * option no setting matches is standard; one its setting refuses is
   * invalid. A list setting contributes the split option without its first
   * item; `subList(1, 0)` throws when the split is empty, which makes the
   * option invalid as well. Any other setting contributes the parameter.
   */
  function Classify(found: Option<Setting>, option: seq<string>): (r: Outcome)
    ensures r.Standard? <==> found.None?
    ensures r.Accepted? ==> found == Some(r.setting) && Validate(r.setting, option).Success?
    ensures Consistent(r)
    ensures r.Accepted? && r.value.Text? ==> |option| == 2 && r.value.text == option[1]
  {
    match found
    case None => Standard
    case Some(s) =>
      match Validate(s, option)
      case Failure(_) => Invalid
      case Success(valid) =>
        if IsList(s) then
          var parts := Split(valid);
          if |parts| == 0 then Invalid
          else Accepted(s, Items(parts[1..]))
        else Accepted(s, Text(valid[1]))
  }

  /** How the constructor treats an option: by the setting `forOption` finds for it. */
  function OutcomeOf(matches: Matcher, option: seq<string>): Outcome {
    Classify(ForOption(matches, option), option)
  }

  /** What `Classify` guarantees of an accepted value: items exactly for list settings, and only tokens. */
  predicate Consistent(c: Outcome) {
    c.Accepted? ==>
      (IsList(c.setting) <==> c.value.Items?) &&
      (c.value.Items? ==> AllTokens(c.value.items))
  }

  /**
   * One iteration of the constructor's loop, given how the option classifies.
   * Accepted list items are appended to what the setting already holds; a
   * setting that holds text where a list is expected makes the cast fail and
   * the option invalid.
   */
  function Absorb(cfg: Config, option: seq<string>, c: Outcome): Config {
    match c
    case Standard => cfg.(standardOptions := cfg.standardOptions + [option])
    case Invalid => cfg.(invalidOptions := cfg.invalidOptions + [option])
    case Accepted(s, v) =>
      if v.Items? && s in cfg.values && cfg.values[s].Text? then
        cfg.(invalidOptions := cfg.invalidOptions + [option])
      else if v.Items? then
        cfg.(values := cfg.values[s := Items(Gathered(cfg, s) + v.items)])
      else
        cfg.(values := cfg.values[s := v])
  }

  /** The items a list setting holds so far. */
  function Gathered(cfg: Config, s: Setting): seq<string> {
    if s in cfg.values && cfg.values[s].Items? then cfg.values[s].items else []
  }

  /**
   * `new UMLDocletConfig(options, reporter)`: the options absorbed one by one,
   * in order. List settings end up holding tokens, text settings text, and
   * no option is filed as both standard and invalid.
   */
  function NewConfig(matches: Matcher, options: seq<seq<string>>): (r: Config)
    ensures WellFormed(r)
    ensures |r.standardOptions| + |r.invalidOptions| <= |options|
    decreases |options|
  {
    if options == [] then Config(map[], [], [])
    else
      var last := options[|options| - 1];
      var before := NewConfig(matches, options[..|options| - 1]);
      AbsorbWellFormed(before, last, OutcomeOf(matches, last));
      Absorb(before, last, OutcomeOf(matches, last))
  }

  lemma NewConfigStep(matches: Matcher, options: seq<seq<string>>, option: seq<string>)
    ensures NewConfig(matches, options + [option]) == Absorb(NewConfig(matches, options), option, OutcomeOf(matches, option))
  {
    assert (options + [option])[..|options|] == options;
  }

  /** The options the constructor files as standard options, in order. */
  function StandardOf(matches: Matcher, options: seq<seq<string>>): seq<seq<string>> {
    if options == [] then []
    else
      var last := options[|options| - 1];
      StandardOf(matches, options[..|options| - 1]) + (if OutcomeOf(matches, last).Standard? then [last] else [])
  }

  /** The options the constructor files as invalid, in order. */
  function InvalidOf(matches: Matcher, options: seq<seq<string>>): seq<seq<string>> {
    if options == [] then []
    else
      var last := options[|options| - 1];
      InvalidOf(matches, options[..|options| - 1]) + (if OutcomeOf(matches, last).Invalid? then [last] else [])
  }

  /** The options that set a value. */
  function AcceptedOf(matches: Matcher, options: seq<seq<string>>): seq<seq<string>> {
    if options == [] then []
    else
      var last := options[|options| - 1];
      AcceptedOf(matches, options[..|options| - 1]) + (if OutcomeOf(matches, last).Accepted? then [last] else [])
  }

  /** Every option lands in exactly one of the three groups. */
  lemma {:induction false} Partition(matches: Matcher, options: seq<seq<string>>)
    ensures |StandardOf(matches, options)| + |InvalidOf(matches, options)| + |AcceptedOf(matches, options)| == |options|
    decreases |options|
  {
    if options != [] {
      Partition(matches, options[..|options| - 1]);
    }
  }

  /** Absorbing a consistent outcome keeps the configuration well formed and files the option by its outcome. */
  lemma AbsorbWellFormed(cfg: Config, option: seq<string>, c: Outcome)
    requires WellFormed(cfg) && Consistent(c)
    ensures WellFormed(Absorb(cfg, option, c))
    ensures Absorb(cfg, option, c).standardOptions == cfg.standardOptions + (if c.Standard? then [option] else [])
    ensures Absorb(cfg, option, c).invalidOptions == cfg.invalidOptions + (if c.Invalid? then [option] else [])
  {
    if c.Accepted? && c.value.Items? && c.setting in cfg.values && cfg.values[c.setting].Items? {
      TokensConcat(cfg.values[c.setting].items, c.value.items);
    }
  }

  /**
   * The constructor keeps list settings as lists of tokens, and its standard
   * and invalid groups are exactly the options `Classify` files there, in
   * command-line order.
   */
  lemma {:induction false} NewConfigGroups(matches: Matcher, options: seq<seq<string>>)
    ensures NewConfig(matches, options).standardOptions == StandardOf(matches, options)
    ensures NewConfig(matches, options).invalidOptions == InvalidOf(matches, options)
    decreases |options|
  {
    if options != [] {
      var init := options[..|options| - 1];
      NewConfigGroups(matches, init);
      var last := options[|options| - 1];
      AbsorbWellFormed(NewConfig(matches, init), last, OutcomeOf(matches, last));
    }
  }

  /** Only settings some option matched hold a value; every other setting keeps its default. */
  lemma {:induction false} StoredSettingsWereGiven(matches: Matcher, options: seq<seq<string>>, s: Setting)
    requires s in NewConfig(matches, options).values
    ensures exists i :: 0 <= i < |options| && ForOption(matches, options[i]) == Some(s)
    decreases |options|
  {
    var init, last := options[..|options| - 1], options[|options| - 1];
    if s in NewConfig(matches, init).values {
      StoredSettingsWereGiven(matches, init, s);
      var i :| 0 <= i < |init| && ForOption(matches, init[i]) == Some(s);
      assert options[i] == init[i];
    } else {
      assert ForOption(matches, options[|options| - 1]) == Some(s);
    }
  }

  /** An option that matches no setting is appended to the standard options and changes nothing else. */
  lemma UnmatchedIsStandard(matches: Matcher, options: seq<seq<string>>, option: seq<string>)
    requires ForOption(matches, option).None?
    ensures var before := NewConfig(matches, options);
      NewConfig(matches, options + [option]) == before.(standardOptions := before.standardOptions + [option])
  {
    NewConfigStep(matches, options, option);
  }

  /** An option its setting refuses is appended to the invalid options and changes nothing else. */
  lemma RefusedIsInvalid(matches: Matcher, options: seq<seq<string>>, option: seq<string>, s: Setting)
    requires ForOption(matches, option) == Some(s)
    requires Validate(s, option).Failure?
    ensures var before := NewConfig(matches, options);
      NewConfig(matches, options + [option]) == before.(invalidOptions := before.invalidOptions + [option])
  {
    NewConfigStep(matches, options, option);
  }

  /** A later option for a setting that is not a list replaces the earlier value: the last one wins. */
  lemma LastTextWins(matches: Matcher, options: seq<seq<string>>, option: seq<string>, s: Setting)
    requires ForOption(matches, option) == Some(s) && !IsList(s)
    requires Validate(s, option).Success?
    ensures var before := NewConfig(matches, options);
      NewConfig(matches, options + [option]) == before.(values := before.values[s := Text(option[1])])
  {
    NewConfigStep(matches, options, option);
  }

  /** A single accepted option of a non-list setting makes the whole configuration: its text is stored, and nothing is standard or invalid. */
  lemma SingleTextStored(matches: Matcher, option: seq<string>, s: Setting)
    requires ForOption(matches, option) == Some(s) && !IsList(s)
    requires Validate(s, option).Success?
    ensures |option| == 2
    ensures NewConfig(matches, [option]) == Config(map[s := Text(option[1])], [], [])
  {
    LastTextWins(matches, [], option, s);
    assert [] + [option] == [option];
  }

  /** A list option whose name is a single token contributes exactly its split parameter. */
  lemma ListContribution(option: seq<string>, s: Setting)
    requires IsList(s)
    requires |option| == 2 && IsToken(option[0])
    ensures Classify(Some(s), option) == Accepted(s, Items(Split([option[1]])))
  {
    assert [option[0]] + [option[1]] == option;
    SplitAppend([option[0]], [option[1]]);
    SplitToken(option[0]);
  }

  /**
   * A repeated list option whose name is a single token appends the split
   * parameter to the items gathered so far.
   */
  lemma RepeatedListOption(matches: Matcher, options: seq<seq<string>>, option: seq<string>, s: Setting)
    requires ForOption(matches, option) == Some(s) && IsList(s)
    requires |option| == 2 && IsToken(option[0])
    ensures var before := NewConfig(matches, options);
      NewConfig(matches, options + [option]) ==
        before.(values := before.values[s := Items(Gathered(before, s) + Split([option[1]]))])
  {
    var before := NewConfig(matches, options);
    NewConfigStep(matches, options, option);
    NewConfigGroups(matches, options);
    ListContribution(option, s);
  }

  /**
   * `validOptions`: the standard options pass the standard doclet's check
   * (a parameter here) and no option was invalid.
   */
  function ValidOptions(matches: Matcher, standardValid: seq<seq<string>> -> bool, options: seq<seq<string>>): bool {
    var cfg := NewConfig(matches, options);
    standardValid(cfg.standardOptions) && |cfg.invalidOptions| == 0
  }

  lemma {:induction false} NoInvalidMeansNoneRefused(matches: Matcher, options: seq<seq<string>>)
    requires InvalidOf(matches, options) == []
    ensures forall i :: 0 <= i < |options| ==> !OutcomeOf(matches, options[i]).Invalid?
    decreases |options|
  {
    if options != [] {
      var init, last := options[..|options| - 1], options[|options| - 1];
      assert |InvalidOf(matches, init)| + (if OutcomeOf(matches, last).Invalid? then 1 else 0) == 0;
      assert !OutcomeOf(matches, last).Invalid?;
      NoInvalidMeansNoneRefused(matches, init);
      forall i | 0 <= i < |options|
        ensures !OutcomeOf(matches, options[i]).Invalid?
      {
        if i < |init| {
          assert options[i] == init[i];
        } else {
          assert options[i] == last;
        }
      }
    }
  }

  /** When the options are valid, every option that names a setting passes that setting's validation. */
  lemma ValidOptionsValidate(matches: Matcher, standardValid: seq<seq<string>> -> bool, options: seq<seq<string>>)
    requires ValidOptions(matches, standardValid, options)
    ensures standardValid(StandardOf(matches, options))
    ensures forall i :: 0 <= i < |options| && ForOption(matches, options[i]).Some? ==>
      Validate(ForOption(matches, options[i]).value, options[i]).Success?
  {
    NewConfigGroups(matches, options);
    NoInvalidMeansNoneRefused(matches, options);
  }

  /** `optionLength`: the setting's length for a recognised option, the standard doclet's answer (a parameter here) otherwise. */
  function OptionLengthOf(matches: Matcher, standardLength: string -> int, option: string): (r: int)
    ensures ForOption(matches, [option]).Some? ==> r == 2
    ensures (forall s :: !matches(s, option)) ==> r == standardLength(option)
  {
    match ForOption(matches, [option])
    case None => standardLength(option)
    case Some(s) => OptionLength(s)
  }
}
