/**
 * `UMLDocletConfig.includeClass`: which classes the doclet renders.
 */
module ClassFilter {
  import opened Wrappers
  import opened DocletSetting
  import opened DocletConfig
  import opened ConfigValues
  import opened BooleanSettings
  import opened Javadoc

  /** The seven settings `includeClass` consults. */
  datatype ClassFlags = ClassFlags(
    privateClasses: bool,
    packagePrivateClasses: bool,
    protectedClasses: bool,
    deprecatedClasses: bool,
    privateInnerClasses: bool,
    packagePrivateInnerClasses: bool,
    protectedInnerClasses: bool)

  /** The seven settings as the private accessors read them, through `Boolean.valueOf`. */
  function ClassFlagsOf(cfg: Config): ClassFlags {
    ClassFlags(
      Flag(cfg, UmlIncludePrivateClasses),
      Flag(cfg, UmlIncludePackagePrivateClasses),
      Flag(cfg, UmlIncludeProtectedClasses),
      Flag(cfg, UmlIncludeDeprecatedClasses),
      Flag(cfg, UmlIncludePrivateInnerClasses),
      Flag(cfg, UmlIncludePackagePrivateInnerClasses),
      Flag(cfg, UmlIncludeProtectedInnerClasses))
  }

  /** The seven settings read trimmed, as `validate` checks them. */
  function TrimmedClassFlagsOf(cfg: Config): ClassFlags {
    ClassFlags(
      TrimmedFlag(cfg, UmlIncludePrivateClasses),
      TrimmedFlag(cfg, UmlIncludePackagePrivateClasses),
      TrimmedFlag(cfg, UmlIncludeProtectedClasses),
      TrimmedFlag(cfg, UmlIncludeDeprecatedClasses),
      TrimmedFlag(cfg, UmlIncludePrivateInnerClasses),
      TrimmedFlag(cfg, UmlIncludePackagePrivateInnerClasses),
      TrimmedFlag(cfg, UmlIncludeProtectedInnerClasses))
  }

  /** The `if`/`else if` chain of `includeClass`: the first exclusion that applies decides. */
  predicate Included(f: ClassFlags, c: ClassDoc) {
    if c.isPrivate && (!f.privateClasses || (c.isInner && !f.privateInnerClasses)) then false
    else if c.isPackagePrivate && (!f.packagePrivateClasses || (c.isInner && !f.packagePrivateInnerClasses)) then false
    else if c.isProtected && (!f.protectedClasses || (c.isInner && !f.protectedInnerClasses)) then false
    else if c.isDeprecated && !f.deprecatedClasses then false
    else true
  }

  /**
   * `includeClass`: a missing class document is never included; otherwise
   * each visibility the class has must be enabled (for inner classes also
   * the inner-class setting), and a deprecated class needs deprecated
   * classes enabled, every setting read through `Boolean.valueOf`.
   */
  function IncludeClass(cfg: Config, classDoc: Option<ClassDoc>): (r: bool)
    ensures classDoc.None? ==> !r
    ensures classDoc.Some? ==> (r <==>
      var c := classDoc.value;
      && (c.isPrivate ==> Flag(cfg, UmlIncludePrivateClasses) && (c.isInner ==> Flag(cfg, UmlIncludePrivateInnerClasses)))
      && (c.isPackagePrivate ==> Flag(cfg, UmlIncludePackagePrivateClasses) && (c.isInner ==> Flag(cfg, UmlIncludePackagePrivateInnerClasses)))
      && (c.isProtected ==> Flag(cfg, UmlIncludeProtectedClasses) && (c.isInner ==> Flag(cfg, UmlIncludeProtectedInnerClasses)))
      && (c.isDeprecated ==> Flag(cfg, UmlIncludeDeprecatedClasses)))
  {
    if classDoc.None? then false
    else
      IncludedRequirements(ClassFlagsOf(cfg), classDoc.value);
      Included(ClassFlagsOf(cfg), classDoc.value)
  }

  /** `includeClass` with every setting read trimmed. */
  predicate TrimmedIncludeClass(cfg: Config, classDoc: Option<ClassDoc>) {
    classDoc.Some? && Included(TrimmedClassFlagsOf(cfg), classDoc.value)
  }

  /**
   * The chain read as independent requirements: each visibility the class
   * has must be enabled (and enabled for inner classes if it is one), and a
   * deprecated class needs deprecated classes enabled.
   */
  lemma IncludedRequirements(f: ClassFlags, c: ClassDoc)
    ensures Included(f, c) <==>
      && (c.isPrivate ==> f.privateClasses && (c.isInner ==> f.privateInnerClasses))
      && (c.isPackagePrivate ==> f.packagePrivateClasses && (c.isInner ==> f.packagePrivateInnerClasses))
      && (c.isProtected ==> f.protectedClasses && (c.isInner ==> f.protectedInnerClasses))
      && (c.isDeprecated ==> f.deprecatedClasses)
  {
  }

  /** Enabling more settings never excludes a class that was included. */
  lemma IncludedMonotonic(f: ClassFlags, g: ClassFlags, c: ClassDoc)
    requires f.privateClasses ==> g.privateClasses
    requires f.packagePrivateClasses ==> g.packagePrivateClasses
    requires f.protectedClasses ==> g.protectedClasses
    requires f.deprecatedClasses ==> g.deprecatedClasses
    requires f.privateInnerClasses ==> g.privateInnerClasses
    requires f.packagePrivateInnerClasses ==> g.packagePrivateInnerClasses
    requires f.protectedInnerClasses ==> g.protectedInnerClasses
    requires Included(f, c)
    ensures Included(g, c)
  {
    IncludedRequirements(f, c);
    IncludedRequirements(g, c);
  }

  /** A public, non-deprecated class is always included, whatever the settings. */
  lemma PublicClassIncluded(cfg: Config, c: ClassDoc)
    requires !c.isPrivate && !c.isPackagePrivate && !c.isProtected && !c.isDeprecated
    ensures IncludeClass(cfg, Some(c))
  {
  }

  /** The inner-class settings only matter for inner classes. */
  lemma TopLevelIgnoresInnerFlags(f: ClassFlags, c: ClassDoc, priv: bool, pkg: bool, prot: bool)
    requires !c.isInner
    ensures Included(f, c) ==
      Included(f.(privateInnerClasses := priv, packagePrivateInnerClasses := pkg, protectedInnerClasses := prot), c)
  {
  }

  /** Nothing is included for a missing class document. */
  lemma NullClassExcluded(cfg: Config)
    ensures !IncludeClass(cfg, None)
  {
  }

  /** Without padding in the seven settings, both readings include the same classes. */
  lemma UnpaddedClassSettingsAgree(cfg: Config, classDoc: Option<ClassDoc>)
    requires Unpadded(cfg, UmlIncludePrivateClasses) && Unpadded(cfg, UmlIncludePackagePrivateClasses)
    requires Unpadded(cfg, UmlIncludeProtectedClasses) && Unpadded(cfg, UmlIncludeDeprecatedClasses)
    requires Unpadded(cfg, UmlIncludePrivateInnerClasses) && Unpadded(cfg, UmlIncludePackagePrivateInnerClasses)
    requires Unpadded(cfg, UmlIncludeProtectedInnerClasses)
    ensures IncludeClass(cfg, classDoc) == TrimmedIncludeClass(cfg, classDoc)
  {
    UnpaddedClassFlagsAgree(cfg);
    assert IncludeClass(cfg, classDoc) == (classDoc.Some? && Included(ClassFlagsOf(cfg), classDoc.value));
  }

  lemma UnpaddedClassFlagsAgree(cfg: Config)
    requires Unpadded(cfg, UmlIncludePrivateClasses) && Unpadded(cfg, UmlIncludePackagePrivateClasses)
    requires Unpadded(cfg, UmlIncludeProtectedClasses) && Unpadded(cfg, UmlIncludeDeprecatedClasses)
    requires Unpadded(cfg, UmlIncludePrivateInnerClasses) && Unpadded(cfg, UmlIncludePackagePrivateInnerClasses)
    requires Unpadded(cfg, UmlIncludeProtectedInnerClasses)
    ensures ClassFlagsOf(cfg) == TrimmedClassFlagsOf(cfg)
  {
    UnpaddedReadingsAgree(cfg, UmlIncludePrivateClasses);
    UnpaddedReadingsAgree(cfg, UmlIncludePackagePrivateClasses);
    UnpaddedReadingsAgree(cfg, UmlIncludeProtectedClasses);
    UnpaddedReadingsAgree(cfg, UmlIncludeDeprecatedClasses);
    UnpaddedReadingsAgree(cfg, UmlIncludePrivateInnerClasses);
    UnpaddedReadingsAgree(cfg, UmlIncludePackagePrivateInnerClasses);
    UnpaddedReadingsAgree(cfg, UmlIncludeProtectedInnerClasses);
    assert ClassFlagsOf(cfg) == TrimmedClassFlagsOf(cfg);
  }

  /** A padded ` true` for private classes validates, yet a private top-level class stays out. */
  lemma PaddedPrivateClassExcluded(cfg: Config, c: ClassDoc)
    requires UmlIncludePrivateClasses in cfg.values && cfg.values[UmlIncludePrivateClasses] == Text(" true")
    requires c.isPrivate && !c.isPackagePrivate && !c.isProtected && !c.isInner && !c.isDeprecated
    ensures !IncludeClass(cfg, Some(c))
    ensures TrimmedIncludeClass(cfg, Some(c))
  {
    PaddedTrueReadings(cfg, UmlIncludePrivateClasses);
  }
}
