/**
 * `ClassRenderer`: the renderer of one class. Its children are the class's
 * fields, constructors and methods in a fixed group order, and `writeTo`
 * wraps their output in a `<type> <name> { ... }` block.
 */
module ClassRenderer {
  import opened Wrappers
  import opened JavaStrings
  import opened Javadoc

  /** A child renderer: a `FieldRenderer` or a `MethodRenderer` for a constructor or a method. */
  datatype Child = FieldChild(fieldDoc: FieldDoc) | ConstructorChild(constructorDoc: ConstructorDoc) | MethodChild(methodDoc: MethodDoc)

  /** A class renderer: its class document and its children, in rendering order. */
  datatype Renderer = Renderer(classDoc: ClassDoc, children: seq<Child>)

  /** The group a child belongs to; groups are rendered in increasing rank. */
  function Rank(c: Child): nat {
    match c
    case FieldChild(_) => 0
    case ConstructorChild(_) => 1
    case MethodChild(m) => if m.isAbstract then 3 else 2
  }

  // ---------------------------------------------------------------------------
  // The children, group by group
  // ---------------------------------------------------------------------------

  /** A child per field, in order. */
  function FieldChildren(fields: seq<FieldDoc>): (r: seq<Child>) {
    seq(|fields|, k requires 0 <= k < |fields| => FieldChild(fields[k]))
  }

  /** A child per constructor, in order. */
  function ConstructorChildren(constructors: seq<ConstructorDoc>): (r: seq<Child>) {
    seq(|constructors|, k requires 0 <= k < |constructors| => ConstructorChild(constructors[k]))
  }

  /** A child per method, in order. */
  function MethodChildren(methods: seq<MethodDoc>): (r: seq<Child>) {
    seq(|methods|, k requires 0 <= k < |methods| => MethodChild(methods[k]))
  }

  /** The methods that are abstract (or, for `false`, not abstract), in order. */
  function Select(methods: seq<MethodDoc>, isAbstract: bool): seq<MethodDoc> {
    if |methods| == 0 then []
    else
      var last := methods[|methods| - 1];
      Select(methods[..|methods| - 1], isAbstract) + (if last.isAbstract == isAbstract then [last] else [])
  }

  /** The children the constructor builds: fields, constructors, concrete methods, then abstract methods. */
  function Ordered(c: ClassDoc): seq<Child> {
    FieldChildren(c.fields) + ConstructorChildren(c.constructors)
      + MethodChildren(Select(c.methods, false)) + MethodChildren(Select(c.methods, true))
  }

  // ---------------------------------------------------------------------------
  // The constructor
  // ---------------------------------------------------------------------------

  /**
   * `new ClassRenderer(config, diagram, classDoc)`: a missing class document
   * is refused with the `requireNonNull` message; otherwise the children are
   * collected in one pass over each member list, abstract methods held back
   * until the end.
   */
  method New(classDoc: Option<ClassDoc>) returns (r: Result<Renderer, string>)
    ensures classDoc.None? <==> r.Failure?
    ensures r.Failure? ==> r.error == "No class documentation provided."
    ensures r.Success? ==> r.value.classDoc == classDoc.value && r.value.children == Ordered(classDoc.value)
  {
    if classDoc.None? {
      return Failure("No class documentation provided.");
    }
    var c := classDoc.value;
    var children := AddFields([], c.fields);
    children := AddConstructors(children, c.constructors);
    var abstractMethods;
    children, abstractMethods := AddMethods(children, c.methods);
    return Success(Renderer(c, children + abstractMethods));
  }

  /** The loop over `fields(false)`. */
  method AddFields(children: seq<Child>, fields: seq<FieldDoc>) returns (r: seq<Child>)
    ensures r == children + FieldChildren(fields)
  {
    r := children;
    for i := 0 to |fields|
      invariant r == children + FieldChildren(fields[..i])
    {
      assert FieldChildren(fields[..i + 1]) == FieldChildren(fields[..i]) + [FieldChild(fields[i])];
      r := r + [FieldChild(fields[i])];
    }
    assert fields[..|fields|] == fields;
  }

  /** The loop over `constructors(false)`. */
  method AddConstructors(children: seq<Child>, constructors: seq<ConstructorDoc>) returns (r: seq<Child>)
    ensures r == children + ConstructorChildren(constructors)
  {
    r := children;
    for i := 0 to |constructors|
      invariant r == children + ConstructorChildren(constructors[..i])
    {
      assert ConstructorChildren(constructors[..i + 1]) == ConstructorChildren(constructors[..i]) + [ConstructorChild(constructors[i])];
      r := r + [ConstructorChild(constructors[i])];
    }
    assert constructors[..|constructors|] == constructors;
  }

  /** The loop over `methods(false)`: concrete methods are added, abstract ones held back. */
  method AddMethods(children: seq<Child>, methods: seq<MethodDoc>) returns (r: seq<Child>, abstractMethods: seq<Child>)
    ensures r == children + MethodChildren(Select(methods, false))
    ensures abstractMethods == MethodChildren(Select(methods, true))
  {
    r, abstractMethods := children, [];
    for i := 0 to |methods|
      invariant r == children + MethodChildren(Select(methods[..i], false))
      invariant abstractMethods == MethodChildren(Select(methods[..i], true))
    {
      var m := methods[i];
      SelectStep(methods, i, false);
      SelectStep(methods, i, true);
      if m.isAbstract {
        abstractMethods := abstractMethods + [MethodChild(m)];
      } else {
        r := r + [MethodChild(m)];
      }
    }
    assert methods[..|methods|] == methods;
  }

  /** One more method adds its child to the group it belongs to. */
  lemma SelectStep(methods: seq<MethodDoc>, i: nat, isAbstract: bool)
    requires i < |methods|
    ensures MethodChildren(Select(methods[..i + 1], isAbstract)) ==
      MethodChildren(Select(methods[..i], isAbstract)) + (if methods[i].isAbstract == isAbstract then [MethodChild(methods[i])] else [])
  {
    assert methods[..i + 1][..i] == methods[..i];
    var s := Select(methods[..i], isAbstract);
    if methods[i].isAbstract == isAbstract {
      assert MethodChildren(s + [methods[i]]) == MethodChildren(s) + [MethodChild(methods[i])];
    }
  }

  // ---------------------------------------------------------------------------
  // What the order promises
  // ---------------------------------------------------------------------------

  /** Selected methods all have the abstractness asked for. */
  lemma {:induction false} SelectAgrees(methods: seq<MethodDoc>, isAbstract: bool)
    ensures forall k | 0 <= k < |Select(methods, isAbstract)| :: Select(methods, isAbstract)[k].isAbstract == isAbstract
  {
    if |methods| > 0 {
      SelectAgrees(methods[..|methods| - 1], isAbstract);
    }
  }

  /** Fields come first, then constructors, then concrete methods, and abstract methods last. */
  lemma OrderedByRank(c: ClassDoc)
    ensures forall i, j | 0 <= i < j < |Ordered(c)| :: Rank(Ordered(c)[i]) <= Rank(Ordered(c)[j])
  {
    var f, k := FieldChildren(c.fields), ConstructorChildren(c.constructors);
    var concrete, abstracts := Select(c.methods, false), Select(c.methods, true);
    var m, a := MethodChildren(concrete), MethodChildren(abstracts);
    SelectAgrees(c.methods, false);
    SelectAgrees(c.methods, true);
    var o := Ordered(c);
    assert o == f + k + m + a;
    forall i | 0 <= i < |o|
      ensures Rank(o[i]) == if i < |f| then 0 else if i < |f| + |k| then 1 else if i < |f| + |k| + |m| then 2 else 3
    {
      if i < |f| {
        assert o[i] == f[i];
      } else if i < |f| + |k| {
        assert o[i] == k[i - |f|];
      } else if i < |f| + |k| + |m| {
        assert o[i] == m[i - |f| - |k|] == MethodChild(concrete[i - |f| - |k|]);
      } else {
        assert o[i] == a[i - |f| - |k| - |m|] == MethodChild(abstracts[i - |f| - |k| - |m|]);
      }
    }
  }

  /** Concrete and abstract methods together are the class's methods, each exactly once. */
  lemma {:induction false} SelectPartition(methods: seq<MethodDoc>)
    ensures multiset(Select(methods, false)) + multiset(Select(methods, true)) == multiset(methods)
  {
    if |methods| > 0 {
      var init, last := methods[..|methods| - 1], methods[|methods| - 1];
      SelectPartition(init);
      assert methods == init + [last];
      assert multiset(methods) == multiset(init) + multiset{last};
      if last.isAbstract {
        assert Select(methods, false) == Select(init, false);
        assert Select(methods, true) == Select(init, true) + [last];
      } else {
        assert Select(methods, false) == Select(init, false) + [last];
        assert Select(methods, true) == Select(init, true);
      }
    }
  }

  /** There is one child per field, constructor and method. */
  lemma ChildCount(c: ClassDoc)
    ensures |Ordered(c)| == |c.fields| + |c.constructors| + |c.methods|
  {
    SelectPartition(c.methods);
    assert |multiset(Select(c.methods, false))| + |multiset(Select(c.methods, true))| == |multiset(c.methods)|;
  }

  // ---------------------------------------------------------------------------
  // Reading the groups back: order within a group is the source order
  // ---------------------------------------------------------------------------

  /** The fields the children render, in order. */
  function FieldsOf(cs: seq<Child>): seq<FieldDoc> {
    if |cs| == 0 then []
    else (if cs[0].FieldChild? then [cs[0].fieldDoc] else []) + FieldsOf(cs[1..])
  }

  /** The constructors the children render, in order. */
  function ConstructorsOf(cs: seq<Child>): seq<ConstructorDoc> {
    if |cs| == 0 then []
    else (if cs[0].ConstructorChild? then [cs[0].constructorDoc] else []) + ConstructorsOf(cs[1..])
  }

  /** The methods the children render, in order. */
  function MethodsOf(cs: seq<Child>): seq<MethodDoc> {
    if |cs| == 0 then []
    else (if cs[0].MethodChild? then [cs[0].methodDoc] else []) + MethodsOf(cs[1..])
  }

  lemma {:induction false} FieldsOfConcat(a: seq<Child>, b: seq<Child>)
    ensures FieldsOf(a + b) == FieldsOf(a) + FieldsOf(b)
  {
    if |a| == 0 {
      assert a + b == b;
    } else {
      var ab := a + b;
      assert ab[0] == a[0] && ab[1..] == a[1..] + b;
      FieldsOfConcat(a[1..], b);
    }
  }

  lemma {:induction false} ConstructorsOfConcat(a: seq<Child>, b: seq<Child>)
    ensures ConstructorsOf(a + b) == ConstructorsOf(a) + ConstructorsOf(b)
  {
    if |a| == 0 {
      assert a + b == b;
    } else {
      var ab := a + b;
      assert ab[0] == a[0] && ab[1..] == a[1..] + b;
      ConstructorsOfConcat(a[1..], b);
    }
  }

  lemma {:induction false} MethodsOfConcat(a: seq<Child>, b: seq<Child>)
    ensures MethodsOf(a + b) == MethodsOf(a) + MethodsOf(b)
  {
    if |a| == 0 {
      assert a + b == b;
    } else {
      var ab := a + b;
      assert ab[0] == a[0] && ab[1..] == a[1..] + b;
      MethodsOfConcat(a[1..], b);
    }
  }

  lemma {:induction false} FieldChildrenBack(fields: seq<FieldDoc>)
    ensures FieldsOf(FieldChildren(fields)) == fields
    ensures ConstructorsOf(FieldChildren(fields)) == [] && MethodsOf(FieldChildren(fields)) == []
  {
    if |fields| > 0 {
      assert FieldChildren(fields)[1..] == FieldChildren(fields[1..]);
      FieldChildrenBack(fields[1..]);
    }
  }

  lemma {:induction false} ConstructorChildrenBack(constructors: seq<ConstructorDoc>)
    ensures ConstructorsOf(ConstructorChildren(constructors)) == constructors
    ensures FieldsOf(ConstructorChildren(constructors)) == [] && MethodsOf(ConstructorChildren(constructors)) == []
  {
    if |constructors| > 0 {
      assert ConstructorChildren(constructors)[1..] == ConstructorChildren(constructors[1..]);
      ConstructorChildrenBack(constructors[1..]);
    }
  }

  lemma {:induction false} MethodChildrenBack(methods: seq<MethodDoc>)
    ensures MethodsOf(MethodChildren(methods)) == methods
    ensures FieldsOf(MethodChildren(methods)) == [] && ConstructorsOf(MethodChildren(methods)) == []
  {
    if |methods| > 0 {
      assert MethodChildren(methods)[1..] == MethodChildren(methods[1..]);
      MethodChildrenBack(methods[1..]);
    }
  }

  /** The fields the children render are the class's fields, in source order. */
  lemma OrderedKeepsFields(c: ClassDoc)
    ensures FieldsOf(Ordered(c)) == c.fields
  {
    var f, k := FieldChildren(c.fields), ConstructorChildren(c.constructors);
    var m, a := MethodChildren(Select(c.methods, false)), MethodChildren(Select(c.methods, true));
    FieldChildrenBack(c.fields);
    ConstructorChildrenBack(c.constructors);
    MethodChildrenBack(Select(c.methods, false));
    MethodChildrenBack(Select(c.methods, true));
    FieldsOfConcat(f + k + m, a);
    FieldsOfConcat(f + k, m);
    FieldsOfConcat(f, k);
    assert c.fields + [] + [] + [] == c.fields;
  }

  /** The constructors the children render are the class's constructors, in source order. */
  lemma OrderedKeepsConstructors(c: ClassDoc)
    ensures ConstructorsOf(Ordered(c)) == c.constructors
  {
    var f, k := FieldChildren(c.fields), ConstructorChildren(c.constructors);
    var m, a := MethodChildren(Select(c.methods, false)), MethodChildren(Select(c.methods, true));
    FieldChildrenBack(c.fields);
    ConstructorChildrenBack(c.constructors);
    MethodChildrenBack(Select(c.methods, false));
    MethodChildrenBack(Select(c.methods, true));
    ConstructorsOfConcat(f + k + m, a);
    ConstructorsOfConcat(f + k, m);
    ConstructorsOfConcat(f, k);
    assert [] + c.constructors + [] + [] == c.constructors;
  }

  /**
   * The methods the children render are the class's methods in source order,
   * except that the abstract ones are moved, in their order, to the end.
   */
  lemma OrderedKeepsMethods(c: ClassDoc)
    ensures MethodsOf(Ordered(c)) == Select(c.methods, false) + Select(c.methods, true)
  {
    var f, k := FieldChildren(c.fields), ConstructorChildren(c.constructors);
    var m, a := MethodChildren(Select(c.methods, false)), MethodChildren(Select(c.methods, true));
    FieldChildrenBack(c.fields);
    ConstructorChildrenBack(c.constructors);
    MethodChildrenBack(Select(c.methods, false));
    MethodChildrenBack(Select(c.methods, true));
    MethodsOfConcat(f + k + m, a);
    MethodsOfConcat(f + k, m);
    MethodsOfConcat(f, k);
    assert [] + [] + Select(c.methods, false) + Select(c.methods, true) == Select(c.methods, false) + Select(c.methods, true);
  }

  /** A class without abstract methods renders its methods exactly in source order. */
  lemma {:induction false} NoAbstractMethodsKeepOrder(methods: seq<MethodDoc>)
    requires forall k | 0 <= k < |methods| :: !methods[k].isAbstract
    ensures Select(methods, false) == methods && Select(methods, true) == []
  {
    if |methods| > 0 {
      NoAbstractMethodsKeepOrder(methods[..|methods| - 1]);
      assert methods == methods[..|methods| - 1] + [methods[|methods| - 1]];
    }
  }

  // ---------------------------------------------------------------------------
  // umlType and writeTo
  // ---------------------------------------------------------------------------

  /**
   * `umlType()`: the PlantUML keyword of the class. Each keyword names
   * exactly one combination of the flags: enum wins over interface,
   * interface over abstract, and a plain class has none of them.
   */
  function UmlType(c: ClassDoc): (r: string)
    ensures r == "enum" <==> c.isEnum
    ensures r == "interface" <==> !c.isEnum && c.isInterface
    ensures r == "abstract class" <==> !c.isEnum && !c.isInterface && c.isAbstract
    ensures r == "class" <==> !c.isEnum && !c.isInterface && !c.isAbstract
  {
    assert "enum"[0] != "interface"[0] && "enum"[0] != "abstract class"[0] && "enum"[0] != "class"[0];
    assert "interface"[0] != "abstract class"[0] && "interface"[0] != "class"[0];
    assert "abstract class"[0] != "class"[0];
    if c.isEnum then "enum"
    else if c.isInterface then "interface"
    else if c.isAbstract then "abstract class"
    else "class"
  }

  /** The diagram state `writeTo` touches: the set of type names encountered so far. */
  datatype Diagram = Diagram(encounteredTypes: set<string>)

  /** What `writeTo` leaves behind: the updated diagram and the text written. */
  datatype Written = Written(diagram: Diagram, text: string)

  /** The first line `writeTo` writes. */
  function Header(c: ClassDoc): string {
    UmlType(c) + " " + c.qualifiedTypeName + " {\n"
  }

  /** The closing line and the blank line after it. */
  const Footer: string := "}\n\n"

  /**
   * `writeTo(out)`, with `childrenText` standing for what `writeChildrenTo`
   * writes: the class is recorded as encountered and its block is written
   * around the children's output.
   */
  function WriteTo(r: Renderer, diagram: Diagram, childrenText: string): (w: Written)
    ensures w.diagram.encounteredTypes == diagram.encounteredTypes + {r.classDoc.qualifiedTypeName}
    ensures StartsWith(w.text, Header(r.classDoc))
    ensures |w.text| == |Header(r.classDoc)| + |childrenText| + |Footer|
    ensures w.text[|Header(r.classDoc)|..|w.text| - |Footer|] == childrenText
    ensures w.text[|w.text| - |Footer|..] == Footer
  {
    Written(Diagram(diagram.encounteredTypes + {r.classDoc.qualifiedTypeName}), Header(r.classDoc) + childrenText + Footer)
  }

  /** The keyword and the name can be read back from the first line. */
  lemma HeaderReadsBack(c: ClassDoc, d: ClassDoc)
    requires Header(c) == Header(d)
    ensures UmlType(c) == UmlType(d)
    ensures c.qualifiedTypeName == d.qualifiedTypeName
  {
    assert Header(c)[0] == UmlType(c)[0] && Header(d)[0] == UmlType(d)[0];
    var n := |UmlType(c)| + 1;
    assert c.qualifiedTypeName == Header(c)[n..|Header(c)| - 3];
    assert d.qualifiedTypeName == Header(d)[n..|Header(d)| - 3];
  }

  /**
   * Writing several classes in a row, the i-th with children output
   * `childrenTexts[i]`: the blocks follow each other and the diagram
   * collects every name.
   */
  function WriteAll(rs: seq<Renderer>, diagram: Diagram, childrenTexts: seq<string>): Written
    requires |childrenTexts| == |rs|
  {
    if |rs| == 0 then Written(diagram, "")
    else
      var before := WriteAll(rs[..|rs| - 1], diagram, childrenTexts[..|rs| - 1]);
      var w := WriteTo(rs[|rs| - 1], before.diagram, childrenTexts[|rs| - 1]);
      Written(w.diagram, before.text + w.text)
  }

  /** The names of the classes rendered. */
  function Names(rs: seq<Renderer>): set<string> {
    set k | 0 <= k < |rs| :: rs[k].classDoc.qualifiedTypeName
  }

  lemma NamesStep(rs: seq<Renderer>)
    requires |rs| > 0
    ensures Names(rs) == Names(rs[..|rs| - 1]) + {rs[|rs| - 1].classDoc.qualifiedTypeName}
  {
    var init := rs[..|rs| - 1];
    forall n | n in Names(rs) ensures n in Names(init) + {rs[|rs| - 1].classDoc.qualifiedTypeName} {
      var k :| 0 <= k < |rs| && rs[k].classDoc.qualifiedTypeName == n;
      if k < |init| {
        assert init[k] == rs[k];
      }
    }
    forall n | n in Names(init) ensures n in Names(rs) {
      var k :| 0 <= k < |init| && init[k].classDoc.qualifiedTypeName == n;
      assert rs[k] == init[k];
    }
  }

  /** After writing several classes the diagram has encountered exactly the earlier types and theirs. */
  lemma {:induction false} WriteAllRecordsNames(rs: seq<Renderer>, diagram: Diagram, childrenTexts: seq<string>)
    requires |childrenTexts| == |rs|
    ensures WriteAll(rs, diagram, childrenTexts).diagram.encounteredTypes == diagram.encounteredTypes + Names(rs)
  {
    if |rs| > 0 {
      WriteAllRecordsNames(rs[..|rs| - 1], diagram, childrenTexts[..|rs| - 1]);
      NamesStep(rs);
    }
  }
}
