/**
 * Splitting of list-valued doclet options (`UMLDocletConfig.split` and
 * `UMLDocletConfig.add`): every string is cut at `,`, `;` and newline, each
 * piece is trimmed, and the non-empty pieces are collected in order.
 */
module OptionValues {
  import opened JavaStrings

  /** The characters of the split pattern `[,;\n]`. */
  predicate IsSeparator(c: char) {
    c == ',' || c == ';' || c == '\n'
  }

  /** An item `split` can produce: non-empty, trimmed, free of separators. */
  predicate IsToken(t: string) {
    |t| > 0 && Trim(t) == t && forall c :: c in t ==> !IsSeparator(c)
  }

  predicate AllTokens(items: seq<string>) {
    forall i :: 0 <= i < |items| ==> IsToken(items[i])
  }

  /** Every piece between two separators, including empty ones, before Java drops any. */
  function Cuts(s: string): (r: seq<string>)
    ensures |r| >= 1
  {
    if s == [] then [[]]
    else if IsSeparator(s[0]) then [[]] + Cuts(s[1..])
    else
      var rest := Cuts(s[1..]);
      [[s[0]] + rest[0]] + rest[1..]
  }

  lemma {:induction false} CutsSeparatorFree(s: string)
    ensures forall i :: 0 <= i < |Cuts(s)| ==> forall c :: c in Cuts(s)[i] ==> !IsSeparator(c)
    decreases |s|
  {
    if s != [] {
      CutsSeparatorFree(s[1..]);
    }
  }

  /** The pieces without their trailing run of empty strings. */
  function DropTrailingEmpty(p: seq<string>): (r: seq<string>)
    ensures |r| <= |p| && r == p[..|r|]
    ensures |r| > 0 ==> r[|r| - 1] != ""
    ensures forall i :: |r| <= i < |p| ==> p[i] == ""
    decreases |p|
  {
    if p == [] || p[|p| - 1] != "" then p else DropTrailingEmpty(p[..|p| - 1])
  }

  predicate SeparatorFree(s: string) {
    forall c :: c in s ==> !IsSeparator(c)
  }

  /**
   * `s.split("[,;\\n]")`: a string without a separator is returned whole
   * (even when empty); otherwise it is cut at every separator and the
   * trailing empty strings are removed.
   */
  function Pieces(s: string): (r: seq<string>)
    ensures SeparatorFree(s) ==> r == [s]
    ensures !SeparatorFree(s) ==> |r| <= |Cuts(s)| && r == Cuts(s)[..|r|] && (|r| > 0 ==> r[|r| - 1] != "")
    ensures !SeparatorFree(s) ==> forall i :: |r| <= i < |Cuts(s)| ==> Cuts(s)[i] == ""
  {
    if SeparatorFree(s) then [s] else DropTrailingEmpty(Cuts(s))
  }

  /** No piece contains a separator. */
  lemma PiecesSeparatorFree(s: string)
    ensures forall i :: 0 <= i < |Pieces(s)| ==> SeparatorFree(Pieces(s)[i])
  {
    CutsSeparatorFree(s);
    if !SeparatorFree(s) {
      forall i | 0 <= i < |Pieces(s)|
        ensures SeparatorFree(Pieces(s)[i])
      {
        assert Pieces(s)[i] == Cuts(s)[i];
      }
    }
  }

  /** Items joined by one separator character: the inverse of `Pieces`. */
  function Join(items: seq<string>, sep: char): string
    requires |items| >= 1
  {
    if |items| == 1 then items[0] else items[0] + [sep] + Join(items[1..], sep)
  }

  /**
   * The list representation `add` switches between: the immutable empty
   * list, an immutable singleton list, and a growable array list.
   */
  datatype JList = EmptyList | SingletonList(elem: string) | ArrayList(elems: seq<string>) {
    function Elements(): seq<string> {
      match this
      case EmptyList => []
      case SingletonList(e) => [e]
      case ArrayList(es) => es
    }

    /** The representation invariant `add` keeps: an array list is only created once a second element arrives. */
    predicate Valid() {
      ArrayList? ==> |elems| >= 2
    }
  }

  /** `add`: appends one element, copying a singleton into a fresh array list. */
  function Add(list: JList, elem: string): (r: JList)
    requires list.Valid()
    ensures r.Valid()
    ensures r.Elements() == list.Elements() + [elem]
  {
    match list
    case EmptyList => SingletonList(elem)
    case SingletonList(curr) => ArrayList([curr, elem])
    case ArrayList(es) => ArrayList(es + [elem])
  }

  /** What `split` keeps of one piece: the piece trimmed, unless that leaves nothing. */
  function KeepOne(piece: string): seq<string> {
    var t := Trim(piece);
    if t == [] then [] else [t]
  }

  /** The trimmed, non-empty pieces, in order: what `split` keeps of one string. */
  function Kept(pieces: seq<string>): seq<string> {
    if pieces == [] then [] else Kept(pieces[..|pieces| - 1]) + KeepOne(pieces[|pieces| - 1])
  }

  /**
   * What `split(values...)` returns: the kept pieces of every value, value by
   * value. Every item is non-empty, trimmed and free of `,`, `;` and newline.
   */
  function Split(values: seq<string>): (r: seq<string>)
    ensures AllTokens(r)
  {
    if values == [] then []
    else
      var last := values[|values| - 1];
      PiecesSeparatorFree(last);
      KeptAreTokens(Pieces(last));
      TokensConcat(Split(values[..|values| - 1]), Kept(Pieces(last)));
      Split(values[..|values| - 1]) + Kept(Pieces(last))
  }

  /** One iteration of the inner loop of `split`: trim the piece and `add` it unless it is empty. */
  function AddTrimmed(list: JList, piece: string): (r: JList)
    requires list.Valid()
    ensures r.Valid()
    ensures r.Elements() == list.Elements() + KeepOne(piece)
  {
    var elem := Trim(piece);
    if elem == [] then list else Add(list, elem)
  }

  /** Appending one more part to a running concatenation. */
  lemma AppendStep<T>(r: seq<T>, a: seq<T>, k: seq<T>, one: seq<T>, k2: seq<T>)
    requires r == a + k && k2 == k + one
    ensures r + one == a + k2
  {
  }

  /** The inner loop of `split`: the kept pieces of one string, added one by one. */
  method AddPieces(acc: JList, pieces: seq<string>) returns (result: JList)
    requires acc.Valid()
    ensures result.Valid()
    ensures result.Elements() == acc.Elements() + Kept(pieces)
  {
    result := acc;
    for j := 0 to |pieces|
      invariant result.Valid()
      invariant result.Elements() == acc.Elements() + Kept(pieces[..j])
    {
      ghost var prev := result.Elements();
      result := AddTrimmed(result, pieces[j]);
      assert pieces[..j + 1][..j] == pieces[..j];
      AppendStep(prev, acc.Elements(), Kept(pieces[..j]), KeepOne(pieces[j]), Kept(pieces[..j + 1]));
    }
    assert pieces[..|pieces|] == pieces;
  }

  /**
   * `split` as the source writes it: a loop over the option's strings whose
   * body adds the kept pieces of each one, starting from the empty list.
   */
  method SplitList(values: seq<string>) returns (result: JList)
    ensures result.Valid()
    ensures result.Elements() == Split(values)
  {
    result := EmptyList;
    for i := 0 to |values|
      invariant result.Valid()
      invariant result.Elements() == Split(values[..i])
    {
      ghost var prev := result.Elements();
      result := AddPieces(result, Pieces(values[i]));
      assert values[..i + 1][..i] == values[..i];
      AppendStep(prev, [], Split(values[..i]), Kept(Pieces(values[i])), Split(values[..i + 1]));
    }
    assert values[..|values|] == values;
  }

  lemma {:induction false} KeptAreTokens(pieces: seq<string>)
    requires forall i :: 0 <= i < |pieces| ==> SeparatorFree(pieces[i])
    ensures AllTokens(Kept(pieces))
    decreases |pieces|
  {
    if pieces != [] {
      var last := pieces[|pieces| - 1];
      KeptAreTokens(pieces[..|pieces| - 1]);
      TrimIdempotent(last);
      TrimSpec(last);
    }
  }

  lemma TokensConcat(a: seq<string>, b: seq<string>)
    requires AllTokens(a) && AllTokens(b)
    ensures AllTokens(a + b)
  {
    forall i | 0 <= i < |a + b|
      ensures IsToken((a + b)[i])
    {
      if i >= |a| {
        assert (a + b)[i] == b[i - |a|];
      }
    }
  }

  /** Splitting several strings is splitting each one and concatenating the results. */
  lemma {:induction false} SplitAppend(a: seq<string>, b: seq<string>)
    ensures Split(a + b) == Split(a) + Split(b)
    decreases |b|
  {
    if b == [] {
      assert a + b == a;
    } else {
      var init, last := b[..|b| - 1], b[|b| - 1];
      assert (a + b)[..|a + b| - 1] == a + init;
      assert (a + b)[|a + b| - 1] == last;
      SplitAppend(a, init);
      AppendStep(Split(a + init), Split(a), Split(init), Kept(Pieces(last)), Split(b));
    }
  }

  lemma {:induction false} CutsOfSeparated(x: string, sep: char, rest: string)
    requires IsSeparator(sep) && SeparatorFree(x)
    ensures Cuts(x + [sep] + rest) == [x] + Cuts(rest)
    decreases |x|
  {
    if x == [] {
      assert x + [sep] + rest == [sep] + rest;
      assert ([sep] + rest)[1..] == rest;
    } else {
      assert (x + [sep] + rest)[1..] == x[1..] + [sep] + rest;
      CutsOfSeparated(x[1..], sep, rest);
      assert [x[0]] + x[1..] == x;
    }
  }

  lemma {:induction false} CutsOfPlain(x: string)
    requires SeparatorFree(x)
    ensures Cuts(x) == [x]
    decreases |x|
  {
    if x != [] {
      CutsOfPlain(x[1..]);
      assert [x[0]] + x[1..] == x;
    }
  }

  lemma {:induction false} CutsJoin(items: seq<string>, sep: char)
    requires |items| >= 1 && IsSeparator(sep)
    requires forall i :: 0 <= i < |items| ==> SeparatorFree(items[i])
    ensures Cuts(Join(items, sep)) == items
    decreases |items|
  {
    if |items| == 1 {
      CutsOfPlain(items[0]);
    } else {
      CutsOfSeparated(items[0], sep, Join(items[1..], sep));
      CutsJoin(items[1..], sep);
    }
  }

  /**
   * Splitting separator-free items joined by a separator gives the items
   * back, provided the last one is not empty: Java would drop it.
   */
  lemma PiecesJoin(items: seq<string>, sep: char)
    requires |items| >= 1 && IsSeparator(sep)
    requires forall i :: 0 <= i < |items| ==> SeparatorFree(items[i])
    requires |items| == 1 || items[|items| - 1] != ""
    ensures Pieces(Join(items, sep)) == items
  {
    if |items| > 1 {
      var j := Join(items, sep);
      assert j == items[0] + [sep] + Join(items[1..], sep);
      assert j[|items[0]|] == sep;
      CutsJoin(items, sep);
    }
  }

  /** Java drops the trailing empty strings, but a string without separators comes back whole. */
  lemma TrailingEmptiesDropped()
    ensures Pieces(",") == []
    ensures Pieces("a,;") == ["a"]
    ensures Pieces(",a") == ["", "a"]
    ensures Pieces("") == [""]
  {
    assert ","[0] == ',';
    CutsOfSeparated("", ',', "");
    assert "" + [','] + "" == ",";
    CutsOfSeparated("", ';', "");
    assert "" + [';'] + "" == ";";
    CutsOfSeparated("a", ',', ";");
    assert "a" + [','] + ";" == "a,;";
    assert "a,;"[1] == ',';
    var cut: seq<string> := ["a", "", ""];
    assert Cuts("a,;") == cut;
    assert cut[..2] == ["a", ""] && cut[..2][..1] == ["a"];
    assert DropTrailingEmpty(cut) == ["a"];
    CutsOfSeparated("", ',', "a");
    assert "" + [','] + "a" == ",a";
    CutsOfPlain("a");
  }

  lemma {:induction false} KeptTokens(items: seq<string>)
    requires AllTokens(items)
    ensures Kept(items) == items
    decreases |items|
  {
    if items != [] {
      KeptTokens(items[..|items| - 1]);
    }
  }

  /** Round trip: splitting items joined with any of the separators returns exactly those items. */
  lemma SplitJoin(items: seq<string>, sep: char)
    requires |items| >= 1 && IsSeparator(sep) && AllTokens(items)
    ensures Split([Join(items, sep)]) == items
  {
    PiecesJoin(items, sep);
    KeptTokens(items);
    assert [Join(items, sep)][..0] == [];
  }

  /** A token on its own splits into itself. */
  lemma SplitToken(t: string)
    requires IsToken(t)
    ensures Split([t]) == [t]
  {
    SplitJoin([t], ',');
  }

  /** Blank-only input, such as the empty default of `umlCommand`, splits into nothing. */
  lemma SplitEmpty()
    ensures Split([""]) == []
  {
    assert Pieces("") == [""];
    assert [""][..0] == [];
    assert Kept([""]) == [];
  }
}
