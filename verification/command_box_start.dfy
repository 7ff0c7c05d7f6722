/**
 * `CommandBoxStart`: the sequence-diagram command that opens a box.
 *
 * The line grammar is `^box(?:\s+"([^"]+)"|\s+([^#]+))?\s*COLOR?$`, where
 * `box` matches in any case, the first alternative captures NAME1 and the
 * second NAME2. It is modelled twice: declaratively, as the lines `Render`
 * builds from a well-formed `BoxLine`, and operationally, as `Recognise`,
 * which takes the decomposition Java's backtracking matcher settles on
 * (the optional group before its absence, the quoted alternative before the
 * bare one, greedy repetitions giving back one character at a time).
 *
 * The colour syntax belongs to `ColorParser`, which is not part of this
 * model: it is the predicate `isColor`, of which only one fact is used —
 * every colour starts with `#`.
 */
module CommandBoxStart {
  import opened Wrappers
  import opened JavaStrings

  // ---------------------------------------------------------------------------
  // Character classes and runs
  // ---------------------------------------------------------------------------

  /**
   * `\s` in a Java regular expression: space, tab, line feed, vertical tab,
   * form feed, carriage return (the last five are the code points 9 to 13).
   */
  predicate IsSpace(c: char) {
    c == ' ' || '\t' <= c <= '\r'
  }

  predicate AllSpace(s: string) {
    forall k | 0 <= k < |s| :: IsSpace(s[k])
  }

  predicate NoneIs(s: string, c: char) {
    forall k | 0 <= k < |s| :: s[k] != c
  }

  /** The length of the longest all-space prefix: what a greedy `\s*` takes. */
  function SpaceRun(s: string): (r: nat)
    ensures r <= |s| && AllSpace(s[..r])
    ensures r < |s| ==> !IsSpace(s[r])
  {
    if |s| > 0 && IsSpace(s[0]) then
      var r := 1 + SpaceRun(s[1..]);
      assert s[..r] == [s[0]] + s[1..][..r - 1];
      r
    else 0
  }

  /** The length of the longest prefix without `c`: what a greedy `[^c]*` takes. */
  function RunWithout(s: string, c: char): (r: nat)
    ensures r <= |s| && NoneIs(s[..r], c)
    ensures r < |s| ==> s[r] == c
  {
    if |s| > 0 && s[0] != c then
      var r := 1 + RunWithout(s[1..], c);
      assert s[..r] == [s[0]] + s[1..][..r - 1];
      r
    else 0
  }

  /** Every colour the colour parser accepts starts with `#`. */
  ghost predicate ColorsStartWithHash(isColor: string -> bool) {
    forall t :: isColor(t) ==> |t| > 0 && t[0] == '#'
  }

  // ---------------------------------------------------------------------------
  // The grammar, declaratively
  // ---------------------------------------------------------------------------

  /** The optional name: absent, NAME1 (between quotes) or NAME2 (bare). */
  datatype Name = NoName | Quoted(text: string) | Bare(text: string)

  /** A `box` line taken apart: the keyword, the spaces before the name, the name, the spaces before the colour, the colour. */
  datatype BoxLine = BoxLine(keyword: string, lead: string, name: Name, gap: string, color: Option<string>)

  function NameText(n: Name): string {
    match n
    case NoName => ""
    case Quoted(t) => "\"" + t + "\""
    case Bare(t) => t
  }

  function ColorText(c: Option<string>): string {
    match c
    case None => ""
    case Some(t) => t
  }

  /** What follows the keyword. */
  function Rest(b: BoxLine): string {
    b.lead + NameText(b.name) + b.gap + ColorText(b.color)
  }

  /** The line a decomposition spells. */
  function Render(b: BoxLine): string {
    b.keyword + Rest(b)
  }

  /** The keyword: `box` in any case. */
  predicate IsKeyword(keyword: string) {
    |keyword| == 3 && EqualsIgnoreCase(keyword, "box")
  }

  /** The decompositions the regular expression allows. */
  predicate WellFormed(b: BoxLine, isColor: string -> bool) {
    && IsKeyword(b.keyword)
    && AllSpace(b.lead) && AllSpace(b.gap)
    && (b.name.NoName? <==> |b.lead| == 0)
    && (b.name.Quoted? ==> |b.name.text| > 0 && NoneIs(b.name.text, '"'))
    && (b.name.Bare? ==> |b.name.text| > 0 && NoneIs(b.name.text, '#'))
    && (b.color.Some? ==> isColor(b.color.value))
  }

  // ---------------------------------------------------------------------------
  // The grammar, as the matcher runs it
  // ---------------------------------------------------------------------------

  /** `\s*COLOR?$` against the rest of the line: the spaces and the colour, if the rest is nothing else. */
  function ColorTail(t: string, isColor: string -> bool): Option<(string, Option<string>)> {
    var g := SpaceRun(t);
    if g == |t| then Some((t, None))
    else if isColor(t[g..]) then Some((t[..g], Some(t[g..])))
    else None
  }

  /** The first alternative, `\s+"([^"]+)"` followed by the tail, against what follows `box`. */
  function QuotedAlternative(keyword: string, rest: string, isColor: string -> bool): Option<BoxLine> {
    var k := SpaceRun(rest);
    if k == 0 || k == |rest| || rest[k] != '"' then None
    else QuotedFrom(keyword, rest, k, RunWithout(rest[k + 1..], '"'), isColor)
  }

  /** The first alternative once `k` spaces and a quote are read and `n` characters without a quote follow. */
  function QuotedFrom(keyword: string, rest: string, k: nat, n: nat, isColor: string -> bool): Option<BoxLine>
    requires k + 1 + n <= |rest|
  {
    if n == 0 || k + 1 + n == |rest| then None
    else WithTail(BoxLine(keyword, rest[..k], Quoted(rest[k + 1..k + 1 + n]), "", None), ColorTail(rest[k + 2 + n..], isColor))
  }

  /** A decomposition completed by the split `ColorTail` found, if it found one. */
  function WithTail(b: BoxLine, tail: Option<(string, Option<string>)>): Option<BoxLine> {
    match tail
    case None => None
    case Some((gap, color)) => Some(b.(gap := gap, color := color))
  }

  /**
   * The second alternative, `\s+([^#]+)` followed by the tail. The name
   * runs to the first `#` (so it keeps trailing spaces and the tail is only
   * a colour); when no character is left for it after the spaces, `\s+`
   * gives its last space back and that space is the name.
   */
  function BareAlternative(keyword: string, rest: string, isColor: string -> bool): Option<BoxLine> {
    var k := SpaceRun(rest);
    if k == 0 then None
    else BareFrom(keyword, rest, k, RunWithout(rest[k..], '#'), isColor)
  }

  /** The second alternative once `k` spaces are read and `p` characters without `#` follow. */
  function BareFrom(keyword: string, rest: string, k: nat, p: nat, isColor: string -> bool): Option<BoxLine>
    requires k + p <= |rest|
  {
    if p > 0 then WithColor(BoxLine(keyword, rest[..k], Bare(rest[k..k + p]), "", None), rest[k + p..], isColor)
    else if k >= 2 then WithColor(BoxLine(keyword, rest[..k - 1], Bare(rest[k - 1..k]), "", None), rest[k..], isColor)
    else None
  }

  /** A decomposition completed by what is left of the line: nothing, or a colour. */
  function WithColor(b: BoxLine, tail: string, isColor: string -> bool): Option<BoxLine> {
    if tail == "" then Some(b)
    else if isColor(tail) then Some(b.(color := Some(tail)))
    else None
  }

  /** Without the optional group: `\s*COLOR?$` right after the keyword. */
  function NoNameAlternative(keyword: string, rest: string, isColor: string -> bool): Option<BoxLine> {
    WithTail(BoxLine(keyword, "", NoName, "", None), ColorTail(rest, isColor))
  }

  /** What follows the keyword: the optional group first (quoted, then bare), then without it. */
  function Alternatives(keyword: string, rest: string, isColor: string -> bool): Option<BoxLine> {
    var quoted := QuotedAlternative(keyword, rest, isColor);
    if quoted.Some? then quoted
    else
      var bare := BareAlternative(keyword, rest, isColor);
      if bare.Some? then bare
      else NoNameAlternative(keyword, rest, isColor)
  }

  /**
   * The whole line, anchored at both ends: only a line that starts with
   * `box` in some case can match, and `box` alone opens a box with neither
   * name nor colour.
   */
  function Recognise(line: string, isColor: string -> bool): (r: Option<BoxLine>)
    ensures r.Some? ==> |line| >= 3 && IsKeyword(line[..3])
    ensures |line| == 3 && IsKeyword(line) ==> r == Some(BoxLine(line, "", NoName, "", None))
  {
    if |line| < 3 || !IsKeyword(line[..3]) then None
    else
      assert |line| == 3 ==> line[..3] == line && line[3..] == "";
      Alternatives(line[..3], line[3..], isColor)
  }

  // ---------------------------------------------------------------------------
  // What the matcher returns is a decomposition of the line
  // ---------------------------------------------------------------------------

  lemma ColorTailSound(t: string, isColor: string -> bool)
    requires ColorTail(t, isColor).Some?
    ensures AllSpace(ColorTail(t, isColor).value.0)
    ensures ColorTail(t, isColor).value.0 + ColorText(ColorTail(t, isColor).value.1) == t
    ensures ColorTail(t, isColor).value.1.Some? ==> isColor(ColorTail(t, isColor).value.1.value)
  {
    var g := SpaceRun(t);
    if g == |t| {
      assert t[..g] == t;
    } else {
      assert t[..g] + t[g..] == t;
    }
  }

  /** `Rest` with the gap and the colour grouped together. */
  lemma RestGrouped(b: BoxLine)
    ensures Rest(b) == b.lead + NameText(b.name) + (b.gap + ColorText(b.color))
  {
  }

  /** A string cut in three. */
  lemma Cut3(s: string, i: nat, j: nat)
    requires i <= j <= |s|
    ensures s == s[..i] + s[i..j] + s[j..]
  {
    assert s[..j] == s[..i] + s[i..j];
    assert s == s[..j] + s[j..];
  }

  /** A line cut around a quoted stretch: spaces, the quote, the name, the quote, the rest. */
  lemma QuotedSplit(rest: string, k: nat, n: nat)
    requires k + 1 + n < |rest| && rest[k] == '"' && rest[k + 1 + n] == '"'
    ensures rest == rest[..k] + ("\"" + rest[k + 1..k + 1 + n] + "\"") + rest[k + 2 + n..]
  {
    assert rest[k..] == [rest[k]] + rest[k + 1..];
    assert rest[k + 1..] == rest[k + 1..k + 1 + n] + rest[k + 1 + n..];
    assert rest[k + 1 + n..] == [rest[k + 1 + n]] + rest[k + 2 + n..];
    assert rest == rest[..k] + rest[k..];
  }

  lemma QuotedSound(keyword: string, rest: string, isColor: string -> bool)
    requires IsKeyword(keyword) && QuotedAlternative(keyword, rest, isColor).Some?
    ensures WellFormed(QuotedAlternative(keyword, rest, isColor).value, isColor)
    ensures Rest(QuotedAlternative(keyword, rest, isColor).value) == rest
  {
    var k := SpaceRun(rest);
    var n := RunWithout(rest[k + 1..], '"');
    var name := rest[k + 1..k + 1 + n];
    var t := rest[k + 2 + n..];
    var tail := ColorTail(t, isColor).value;
    ColorTailSound(t, isColor);
    var b := BoxLine(keyword, rest[..k], Quoted(name), tail.0, tail.1);
    assert QuotedAlternative(keyword, rest, isColor) == Some(b);
    assert rest[k + 1..][..n] == name;
    assert rest[k + 1..][n] == '"';
    QuotedSplit(rest, k, n);
    RestGrouped(b);
  }

  /** What `WithColor` adds is exactly the tail it was given. */
  lemma WithColorSound(b: BoxLine, tail: string, isColor: string -> bool)
    requires b.color.None? && WithColor(b, tail, isColor).Some?
    ensures var r := WithColor(b, tail, isColor).value;
      r == b.(color := r.color) && ColorText(r.color) == tail && (r.color.Some? ==> isColor(r.color.value))
  {
  }

  /** The second alternative with a name of `p` characters after `k` spaces. */
  lemma BareNameSound(keyword: string, rest: string, k: nat, p: nat, isColor: string -> bool)
    requires IsKeyword(keyword) && 0 < k && 0 < p && k + p <= |rest|
    requires AllSpace(rest[..k]) && NoneIs(rest[k..k + p], '#')
    requires BareFrom(keyword, rest, k, p, isColor).Some?
    ensures WellFormed(BareFrom(keyword, rest, k, p, isColor).value, isColor)
    ensures Rest(BareFrom(keyword, rest, k, p, isColor).value) == rest
  {
    var b := BoxLine(keyword, rest[..k], Bare(rest[k..k + p]), "", None);
    WithColorSound(b, rest[k + p..], isColor);
    var r := BareFrom(keyword, rest, k, p, isColor).value;
    Cut3(rest, k, k + p);
    RestGrouped(r);
  }

  /** The second alternative when `\s+` gives its last space back to the name. */
  lemma GivenBackSound(keyword: string, rest: string, k: nat, isColor: string -> bool)
    requires IsKeyword(keyword) && 2 <= k <= |rest|
    requires AllSpace(rest[..k])
    requires BareFrom(keyword, rest, k, 0, isColor).Some?
    ensures WellFormed(BareFrom(keyword, rest, k, 0, isColor).value, isColor)
    ensures Rest(BareFrom(keyword, rest, k, 0, isColor).value) == rest
  {
    var b := BoxLine(keyword, rest[..k - 1], Bare(rest[k - 1..k]), "", None);
    WithColorSound(b, rest[k..], isColor);
    var r := BareFrom(keyword, rest, k, 0, isColor).value;
    assert rest[..k - 1] == rest[..k][..k - 1];
    assert rest[k - 1] == rest[..k][k - 1];
    Cut3(rest, k - 1, k);
    RestGrouped(r);
  }

  lemma BareSound(keyword: string, rest: string, isColor: string -> bool)
    requires IsKeyword(keyword) && BareAlternative(keyword, rest, isColor).Some?
    ensures WellFormed(BareAlternative(keyword, rest, isColor).value, isColor)
    ensures Rest(BareAlternative(keyword, rest, isColor).value) == rest
  {
    var k := SpaceRun(rest);
    var p := RunWithout(rest[k..], '#');
    if p > 0 {
      assert rest[k..][..p] == rest[k..k + p];
      BareNameSound(keyword, rest, k, p, isColor);
    } else {
      GivenBackSound(keyword, rest, k, isColor);
    }
  }

  lemma NoNameSound(keyword: string, rest: string, isColor: string -> bool)
    requires IsKeyword(keyword) && NoNameAlternative(keyword, rest, isColor).Some?
    ensures WellFormed(NoNameAlternative(keyword, rest, isColor).value, isColor)
    ensures Rest(NoNameAlternative(keyword, rest, isColor).value) == rest
  {
    var tail := ColorTail(rest, isColor).value;
    ColorTailSound(rest, isColor);
    var b := BoxLine(keyword, "", NoName, tail.0, tail.1);
    assert NoNameAlternative(keyword, rest, isColor) == Some(b);
    RestWithoutName(b);
  }

  lemma RestWithoutName(b: BoxLine)
    requires b.lead == "" && b.name.NoName?
    ensures Rest(b) == b.gap + ColorText(b.color)
  {
  }

  /** Whatever the matcher returns is a well-formed decomposition of the line. */
  lemma RecogniseSound(line: string, isColor: string -> bool)
    requires Recognise(line, isColor).Some?
    ensures WellFormed(Recognise(line, isColor).value, isColor)
    ensures Render(Recognise(line, isColor).value) == line
  {
    var keyword, rest := line[..3], line[3..];
    assert line == keyword + rest;
    if QuotedAlternative(keyword, rest, isColor).Some? {
      QuotedSound(keyword, rest, isColor);
    } else if BareAlternative(keyword, rest, isColor).Some? {
      BareSound(keyword, rest, isColor);
    } else {
      NoNameSound(keyword, rest, isColor);
    }
  }

  // ---------------------------------------------------------------------------
  // Every line the grammar allows is matched, a quoted name first
  // ---------------------------------------------------------------------------

  /** A greedy `\s*` stops exactly at the end of a run of spaces that is followed by a non-space. */
  lemma {:induction false} SpaceRunOver(spaces: string, s: string)
    requires AllSpace(spaces)
    requires |s| > 0 ==> !IsSpace(s[0])
    ensures SpaceRun(spaces + s) == |spaces|
  {
    if |spaces| > 0 {
      assert (spaces + s)[1..] == spaces[1..] + s;
      SpaceRunOver(spaces[1..], s);
    } else {
      assert spaces + s == s;
    }
  }

  /** A greedy `\s*` stops at or before any non-space. */
  lemma {:induction false} SpaceRunStops(s: string, i: nat)
    requires i < |s| && !IsSpace(s[i])
    ensures SpaceRun(s) <= i
  {
    if i > 0 && IsSpace(s[0]) {
      SpaceRunStops(s[1..], i - 1);
    }
  }

  /** A greedy `\s*` takes at least a leading run of spaces. */
  lemma {:induction false} SpaceRunAtLeast(spaces: string, s: string)
    requires AllSpace(spaces)
    ensures SpaceRun(spaces + s) >= |spaces|
  {
    if |spaces| > 0 {
      assert (spaces + s)[1..] == spaces[1..] + s;
      SpaceRunAtLeast(spaces[1..], s);
    }
  }

  /** A greedy `[^c]*` stops exactly at the first `c`. */
  lemma {:induction false} RunWithoutOver(s: string, c: char, t: string)
    requires NoneIs(s, c)
    requires |t| > 0 ==> t[0] == c
    ensures RunWithout(s + t, c) == |s|
  {
    if |s| > 0 {
      assert (s + t)[1..] == s[1..] + t;
      RunWithoutOver(s[1..], c, t);
    } else {
      assert s + t == t;
    }
  }

  /** On a well-formed tail the matcher's split is the given one. */
  lemma ColorTailParts(gap: string, color: Option<string>, isColor: string -> bool)
    requires ColorsStartWithHash(isColor)
    requires AllSpace(gap) && (color.Some? ==> isColor(color.value))
    ensures ColorTail(gap + ColorText(color), isColor) == Some((gap, color))
  {
    var t := gap + ColorText(color);
    SpaceRunOver(gap, ColorText(color));
    assert t[..|gap|] == gap;
    if color.Some? {
      assert t[|gap|..] == color.value;
    } else {
      assert t == gap;
    }
  }

  /** The slices the first alternative takes of spaces, a quoted name and a tail. */
  lemma QuotedSlices(lead: string, t: string, tail: string)
    ensures var rest := lead + ("\"" + t + "\"" + tail);
      && |rest| == |lead| + |t| + 2 + |tail|
      && rest[|lead|] == '"'
      && rest[..|lead|] == lead
      && rest[|lead| + 1..] == t + ("\"" + tail)
      && rest[|lead| + 1..|lead| + 1 + |t|] == t
      && rest[|lead| + 2 + |t|..] == tail
  {
    var rest := lead + ("\"" + t + "\"" + tail);
    assert rest[|lead|..] == "\"" + t + "\"" + tail;
    assert rest[|lead| + 1..] == rest[|lead|..][1..];
  }

  /** Where the greedy runs of the first alternative stop on spaces, a quoted name and a tail. */
  lemma QuotedCuts(lead: string, t: string, tail: string)
    requires AllSpace(lead) && NoneIs(t, '"')
    ensures var rest := lead + ("\"" + t + "\"" + tail);
      && |rest| == |lead| + |t| + 2 + |tail|
      && SpaceRun(rest) == |lead| && rest[|lead|] == '"'
      && RunWithout(rest[|lead| + 1..], '"') == |t|
      && rest[..|lead|] == lead
      && rest[|lead| + 1..|lead| + 1 + |t|] == t
      && rest[|lead| + 2 + |t|..] == tail
  {
    QuotedSlices(lead, t, tail);
    SpaceRunOver(lead, "\"" + t + "\"" + tail);
    RunWithoutOver(t, '"', "\"" + tail);
  }

  /** The first alternative on spaces, a quoted name and a tail reads them back. */
  lemma QuotedReadBack(keyword: string, lead: string, t: string, gap: string, color: Option<string>, isColor: string -> bool)
    requires ColorsStartWithHash(isColor)
    requires |lead| > 0 && AllSpace(lead) && |t| > 0 && NoneIs(t, '"')
    requires AllSpace(gap) && (color.Some? ==> isColor(color.value))
    ensures QuotedAlternative(keyword, lead + ("\"" + t + "\"" + (gap + ColorText(color))), isColor)
         == Some(BoxLine(keyword, lead, Quoted(t), gap, color))
  {
    var tail := gap + ColorText(color);
    QuotedCuts(lead, t, tail);
    ColorTailParts(gap, color, isColor);
  }

  /** The first alternative reads a quoted name back exactly. */
  lemma QuotedAlternativeOn(b: BoxLine, isColor: string -> bool)
    requires ColorsStartWithHash(isColor)
    requires WellFormed(b, isColor) && b.name.Quoted?
    ensures QuotedAlternative(b.keyword, Rest(b), isColor) == Some(b)
  {
    var q := "\"" + b.name.text + "\"";
    var tail := b.gap + ColorText(b.color);
    RestGrouped(b);
    assert b.lead + q + tail == b.lead + (q + tail);
    QuotedReadBack(b.keyword, b.lead, b.name.text, b.gap, b.color, isColor);
  }

  /**
   * A quoted name always wins: a line built from a quoted name is read
   * back as exactly that decomposition.
   */
  lemma QuotedFirst(b: BoxLine, isColor: string -> bool)
    requires ColorsStartWithHash(isColor)
    requires WellFormed(b, isColor) && b.name.Quoted?
    ensures Recognise(Render(b), isColor) == Some(b)
  {
    var line := Render(b);
    assert line[..3] == b.keyword && line[3..] == Rest(b);
    QuotedAlternativeOn(b, isColor);
  }

  /** Spaces, a bare name and spaces contain no `#`. */
  lemma BareBodyHasNoHash(b: BoxLine, isColor: string -> bool)
    requires WellFormed(b, isColor) && b.name.Bare?
    ensures NoneIs(b.lead + b.name.text + b.gap, '#')
  {
    var body := b.lead + b.name.text + b.gap;
    forall j | 0 <= j < |body| ensures body[j] != '#' {
      if j < |b.lead| {
        assert body[j] == b.lead[j];
      } else if j < |b.lead| + |b.name.text| {
        assert body[j] == b.name.text[j - |b.lead|];
      } else {
        assert body[j] == b.gap[j - |b.lead| - |b.name.text|];
      }
    }
  }

  /** Where the greedy runs of the second alternative stop on a text without `#` followed by a colour. */
  lemma BareCuts(body: string, c: string)
    requires NoneIs(body, '#') && (|c| > 0 ==> c[0] == '#')
    ensures var rest := body + c;
      && SpaceRun(rest) <= |body|
      && RunWithout(rest[SpaceRun(rest)..], '#') == |body| - SpaceRun(rest)
      && rest[|body|..] == c
  {
    var rest := body + c;
    if |c| > 0 {
      assert rest[|body|] == c[0];
      SpaceRunStops(rest, |body|);
    }
    var k := SpaceRun(rest);
    assert rest[k..] == body[k..] + c;
    RunWithoutOver(body[k..], '#', c);
  }

  /** With a bare name in the line the second alternative matches. */
  lemma BareMatches(b: BoxLine, isColor: string -> bool)
    requires ColorsStartWithHash(isColor)
    requires WellFormed(b, isColor) && b.name.Bare?
    ensures BareAlternative(b.keyword, Rest(b), isColor).Some?
  {
    var body := b.lead + b.name.text + b.gap;
    var c := ColorText(b.color);
    var rest := Rest(b);
    assert rest == body + c;
    BareBodyHasNoHash(b, isColor);
    BareCuts(body, c);
    assert rest[0] == b.lead[0];
    var k := SpaceRun(rest);
    assert rest[k + (|body| - k)..] == c;
  }

  /** Every line the grammar allows is matched. */
  lemma RecogniseComplete(b: BoxLine, isColor: string -> bool)
    requires ColorsStartWithHash(isColor)
    requires WellFormed(b, isColor)
    ensures Recognise(Render(b), isColor).Some?
  {
    var line := Render(b);
    assert line[..3] == b.keyword && line[3..] == Rest(b);
    if b.name.Quoted? {
      QuotedAlternativeOn(b, isColor);
    } else if b.name.Bare? {
      BareMatches(b, isColor);
    } else {
      assert Rest(b) == b.gap + ColorText(b.color);
      ColorTailParts(b.gap, b.color, isColor);
    }
  }

  // ---------------------------------------------------------------------------
  // executeArg
  // ---------------------------------------------------------------------------

  /** A call to `SequenceDiagram.boxStart`: the title and the background colour. */
  datatype BoxStart = BoxStart(title: string, color: Option<string>)

  /** What `executeArg` sees of the sequence diagram: whether a box is pending, and the `boxStart` calls so far. */
  datatype SequenceDiagram = SequenceDiagram(boxPending: bool, boxStarts: seq<BoxStart>)

  /** `CommandExecutionResult`: ok, or an error with its message. */
  datatype CommandResult = Ok | Error(message: string)

  /** `getLazzy("NAME", 0)` with the null title replaced by the empty string. */
  function Title(n: Name): string {
    match n
    case NoName => ""
    case Quoted(t) => t
    case Bare(t) => t
  }

  /**
   * `executeArg`: a pending box refuses the command and nothing happens;
   * otherwise `boxStart` is called once with the title and the colour.
   * `SequenceDiagram.boxStart` is not shown, so the pending flag it leaves
   * behind is the parameter `pendingAfter`.
   */
  function ExecuteArg(diagram: SequenceDiagram, b: BoxLine, pendingAfter: bool): (r: (SequenceDiagram, CommandResult))
    ensures diagram.boxPending ==> r == (diagram, Error("Box cannot be nested"))
    ensures !diagram.boxPending ==> r.1 == Ok
    ensures !diagram.boxPending ==>
      (|r.0.boxStarts| == |diagram.boxStarts| + 1
       && r.0.boxStarts[..|diagram.boxStarts|] == diagram.boxStarts
       && r.0.boxStarts[|diagram.boxStarts|] == BoxStart(Title(b.name), b.color))
  {
    if diagram.boxPending then (diagram, Error("Box cannot be nested"))
    else
      var starts := diagram.boxStarts + [BoxStart(Title(b.name), b.color)];
      assert starts[..|diagram.boxStarts|] == diagram.boxStarts;
      (SequenceDiagram(pendingAfter, starts), Ok)
  }

  /** The whole command on one line: a line that does not match is not this command. */
  function Execute(diagram: SequenceDiagram, line: string, isColor: string -> bool, pendingAfter: bool): Option<(SequenceDiagram, CommandResult)> {
    match Recognise(line, isColor)
    case None => None
    case Some(b) => Some(ExecuteArg(diagram, b, pendingAfter))
  }

  /** The title handed to `boxStart` is the captured name; without one it is empty. */
  lemma TitleIsCapturedName(b: BoxLine, isColor: string -> bool)
    requires WellFormed(b, isColor)
    ensures Title(b.name) == "" <==> b.name.NoName?
    ensures !b.name.NoName? ==> Title(b.name) == b.name.text
  {
  }

  /** A `box` command never adds more than one `boxStart` call, and adds one exactly when it succeeds. */
  lemma ExecuteCountsOne(diagram: SequenceDiagram, b: BoxLine, pendingAfter: bool)
    ensures var (after, result) := ExecuteArg(diagram, b, pendingAfter);
      |after.boxStarts| == |diagram.boxStarts| + (if result.Ok? then 1 else 0)
      && (result.Error? ==> after == diagram)
  {
  }

  // ---------------------------------------------------------------------------
  // Examples
  // ---------------------------------------------------------------------------

  /** `box` alone opens a box with the empty title and no colour. */
  lemma PlainBox(diagram: SequenceDiagram, isColor: string -> bool, pendingAfter: bool)
    requires !diagram.boxPending
    ensures Execute(diagram, "box", isColor, pendingAfter) ==
      Some((SequenceDiagram(pendingAfter, diagram.boxStarts + [BoxStart("", None)]), Ok))
  {
    assert LowerCase("box") == "box";
    assert "box"[..3] == "box" && "box"[3..] == "";
  }

  /** `box "Label" #FF0000` opens a box titled `Label` with that colour. */
  lemma LabelledBox(diagram: SequenceDiagram, isColor: string -> bool, pendingAfter: bool)
    requires ColorsStartWithHash(isColor) && isColor("#FF0000")
    requires !diagram.boxPending
    ensures Execute(diagram, "box \"Label\" #FF0000", isColor, pendingAfter) ==
      Some((SequenceDiagram(pendingAfter, diagram.boxStarts + [BoxStart("Label", Some("#FF0000"))]), Ok))
  {
    var b := BoxLine("box", " ", Quoted("Label"), " ", Some("#FF0000"));
    assert LowerCase("box") == "box";
    assert Render(b) == "box \"Label\" #FF0000";
    assert NoneIs("Label", '"');
    QuotedFirst(b, isColor);
  }

  /** A second `box` while one is pending is refused and changes nothing. */
  lemma NestedBoxRefused(diagram: SequenceDiagram, line: string, isColor: string -> bool, pendingAfter: bool)
    requires diagram.boxPending && Recognise(line, isColor).Some?
    ensures Execute(diagram, line, isColor, pendingAfter) == Some((diagram, Error("Box cannot be nested")))
  {
  }

  /** `box` and two spaces: the bare alternative takes the last space back, so the title is one space. */
  lemma TwoSpacesMakeATitle(isColor: string -> bool)
    ensures Recognise("box  ", isColor) == Some(BoxLine("box", " ", Bare(" "), "", None))
  {
    var rest := "box  "[3..];
    assert "box  "[..3] == "box" && rest == "  ";
    assert LowerCase("box") == "box";
    assert SpaceRun(rest) == 2 by {
      assert rest[1..] == " " && rest[1..][1..] == "";
    }
    assert RunWithout(rest[2..], '#') == 0;
    assert QuotedAlternative("box", rest, isColor) == None;
    assert rest[..1] == " " && rest[1..2] == " " && rest[2..] == "";
  }
}
