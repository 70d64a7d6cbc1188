/**
 * What the scene reader guarantees: the layout of a record line, the effect
 * of each tag, what a whole file produces (each vector holds its tagged
 * lines' parses in file order, the last `e`/`a` line wins, `sizes` counts
 * objects and directions), when loading aborts, and what `loadtoShader`
 * leaves in the shader's uniform slots.
 */
module SceneProperties {
  import opened Wrappers
  import opened Glm
  import opened Tokenizer
  import opened Uniforms
  import opened SceneParser

  // ---------------------------------------------------------------------
  // Vocabulary: tags, the five appended vectors, the two settings
  // ---------------------------------------------------------------------

  /** The five vectors a tagged line appends to. */
  datatype Channel = Objects | Colors | Directions | Lights | Intensities

  function TagOf(ch: Channel): char {
    match ch
    case Objects => 'o'
    case Colors => 'c'
    case Directions => 'd'
    case Lights => 'p'
    case Intensities => 'i'
  }

  function Vector(s: SceneState, ch: Channel): seq<Vec4> {
    match ch
    case Objects => s.objects
    case Colors => s.colors
    case Directions => s.directions
    case Lights => s.lights
    case Intensities => s.intensities
  }

  /** The two values a tagged line overwrites. */
  datatype Setting = Eye | Ambient

  function SettingTag(st: Setting): char {
    match st
    case Eye => 'e'
    case Ambient => 'a'
  }

  function SettingValue(s: SceneState, st: Setting): Vec4 {
    match st
    case Eye => s.eye
    case Ambient => s.ambient
  }

  /** A line the dispatcher looks at whose first character is `tag`. */
  predicate IsTagged(line: string, tag: char) {
    |line| >= 2 && line[0] == tag
  }

  /** The record parser the dispatcher is given (`RecordParser(atof)` in a load). */
  type Parser = string -> Result<Vec4, SubstrError>

  /** A record line on which the parser throws. */
  predicate RecordFails(line: string, parse: Parser) {
    IsRecord(line) && parse(line).Failure?
  }

  /** The lines tagged `tag`, in file order. */
  function Tagged(lines: seq<string>, tag: char): seq<string>
    decreases |lines|
  {
    if lines == [] then []
    else (if IsTagged(lines[0], tag) then [lines[0]] else []) + Tagged(lines[1..], tag)
  }

  /** The parses of `lines`, in order, or the first exception. */
  function ParseAll(lines: seq<string>, parse: Parser): Result<seq<Vec4>, SubstrError>
    decreases |lines|
  {
    if lines == [] then Success([])
    else
      var v :- parse(lines[0]);
      var rest :- ParseAll(lines[1..], parse);
      Success([v] + rest)
  }

  /** A record line written the way scene files are: tag, then four tokens, single spaces between. */
  function RecordLine(tag: char, a: string, b: string, c: string, d: string): string {
    [tag] + " " + a + " " + b + " " + c + " " + d
  }

  /** A token as written in a record line: at least one character, none of them a space. */
  predicate IsToken(t: string) {
    |t| >= 1 && forall i :: 0 <= i < |t| ==> t[i] != ' '
  }

  // ---------------------------------------------------------------------
  // parseVec4
  // ---------------------------------------------------------------------

  /**
   * The first field starts at the first non-space index at or after 2, or
   * at the end of the line when there is none.
   */
  lemma FirstFieldStart(line: string)
    requires |line| >= 2
    ensures 2 <= FieldSpans(line)[0].start <= |line|
    ensures FieldSpans(line)[0].start < |line| ==> line[FieldSpans(line)[0].start] != ' '
    ensures forall k :: 2 <= k < FieldSpans(line)[0].start ==> line[k] == ' '
  {
  }

  /**
   * Each later field starts just past the previous field's end, and every
   * field ends where `FindNextChar` stops from its start.
   */
  lemma FieldSpansChain(line: string)
    ensures forall k :: 1 <= k < 4 ==> FieldSpans(line)[k].start == FieldSpans(line)[k - 1].end + 1
    ensures forall k :: 0 <= k < 4 ==>
              FieldSpans(line)[k].end == NextCharIndex(FieldSpans(line)[k].start, line, |line|, ' ')
  {
  }

  /**
   * `parseVec4` succeeds exactly when the line has at least two characters
   * and its third field is ended by a space rather than by the end of the
   * line; it then returns the four fields' slices converted in (x, y, z, w)
   * order.
   */
  lemma ParsedVec4Fields(line: string, atof: string -> real)
    requires |line| < UINT_MODULUS
    ensures ParsedVec4(line, atof).Success? <==> |line| >= 2 && FieldSpans(line)[2].end < |line|
    ensures ParsedVec4(line, atof).Success? ==>
              var f := FieldSpans(line);
              ParsedVec4(line, atof).value == Vec4(
                atof(line[f[0].start..f[0].end]),
                atof(line[f[1].start..f[1].end]),
                atof(line[f[2].start..f[2].end]),
                atof(line[f[3].start..f[3].end]))
  {
    var f := FieldSpans(line);
    if |line| >= 2 && f[2].end < |line| {
      assert f[0].end < f[1].start <= f[1].end < f[2].start;
    }
  }

  /**
   * Reading a token: from the index of its first character, `FindNextChar`
   * stops at the space that follows it, or at the end of the line.
   */
  lemma TokenSpan(line: string, start: nat, end: nat)
    requires start < end <= |line|
    requires IsToken(line[start..end])
    requires end == |line| || line[end] == ' '
    ensures SpanFrom(line, start) == Span(start, end)
  {
    assert forall k :: start <= k < end ==> line[k] == line[start..end][k - start];
  }

  /** A line whose four fields are tokens separated by single spaces has those tokens as its field spans. */
  lemma TokenFieldSpans(line: string, e0: nat, e1: nat, e2: nat)
    requires 2 < e0 < e1 < e2 < |line|
    requires IsToken(line[2..e0]) && IsToken(line[e0 + 1..e1]) && IsToken(line[e1 + 1..e2]) && IsToken(line[e2 + 1..])
    requires line[e0] == ' ' && line[e1] == ' ' && line[e2] == ' '
    ensures FieldSpans(line) == [Span(2, e0), Span(e0 + 1, e1), Span(e1 + 1, e2), Span(e2 + 1, |line|)]
  {
    assert line[2] == line[2..e0][0];
    assert line[e2 + 1..] == line[e2 + 1..|line|];
    TokenSpan(line, 2, e0);
    TokenSpan(line, e0 + 1, e1);
    TokenSpan(line, e1 + 1, e2);
    TokenSpan(line, e2 + 1, |line|);
  }

  /** A token inside a concatenation, and the character after it. */
  lemma TokenAt(p: string, t: string, r: string)
    ensures (p + t + r)[|p|..|p| + |t|] == t
    ensures r != [] ==> (p + t + r)[|p| + |t|] == r[0]
  {
  }

  /** The first token of a record line, and the space after it. */
  lemma RecordLineSplitA(pa: string, a: string, b: string, c: string, d: string)
    ensures (pa + a + " " + b + " " + c + " " + d)[|pa|..|pa| + |a|] == a
    ensures (pa + a + " " + b + " " + c + " " + d)[|pa| + |a|] == ' '
  {
    assert pa + a + " " + b + " " + c + " " + d == pa + a + (" " + b + " " + c + " " + d);
    TokenAt(pa, a, " " + b + " " + c + " " + d);
  }

  /** The second token, and the space after it. */
  lemma RecordLineSplitB(pb: string, b: string, c: string, d: string)
    ensures (pb + b + " " + c + " " + d)[|pb|..|pb| + |b|] == b
    ensures (pb + b + " " + c + " " + d)[|pb| + |b|] == ' '
  {
    assert pb + b + " " + c + " " + d == pb + b + (" " + c + " " + d);
    TokenAt(pb, b, " " + c + " " + d);
  }

  /** The third token, and the space after it. */
  lemma RecordLineSplitC(pc: string, c: string, d: string)
    ensures (pc + c + " " + d)[|pc|..|pc| + |c|] == c
    ensures (pc + c + " " + d)[|pc| + |c|] == ' '
  {
    assert pc + c + " " + d == pc + c + (" " + d);
    TokenAt(pc, c, " " + d);
  }

  /** The four tokens of a record line, as slices of it, and the spaces between them. */
  lemma RecordLineSlices(tag: char, a: string, b: string, c: string, d: string)
    ensures var line := RecordLine(tag, a, b, c, d);
      var e0 := 2 + |a|;
      var e1 := e0 + 1 + |b|;
      var e2 := e1 + 1 + |c|;
      && e2 < |line| == e2 + 1 + |d|
      && line[2..e0] == a && line[e0 + 1..e1] == b && line[e1 + 1..e2] == c && line[e2 + 1..] == d
      && line[e0] == ' ' && line[e1] == ' ' && line[e2] == ' '
  {
    var pa := [tag] + " ";
    var pb := pa + a + " ";
    var pc := pb + b + " ";
    var pd := pc + c + " ";
    RecordLineSplitA(pa, a, b, c, d);
    RecordLineSplitB(pb, b, c, d);
    RecordLineSplitC(pc, c, d);
    assert (pd + d)[|pd|..] == d;
  }

  /** The four field spans of a record line are exactly its four tokens. */
  lemma RecordLineSpans(tag: char, a: string, b: string, c: string, d: string)
    requires IsToken(a) && IsToken(b) && IsToken(c) && IsToken(d)
    ensures var line := RecordLine(tag, a, b, c, d);
      var f := FieldSpans(line);
      && f[2].end < |line|
      && line[f[0].start..f[0].end] == a
      && line[f[1].start..f[1].end] == b
      && line[f[2].start..f[2].end] == c
      && line[f[3].start..f[3].end] == d
  {
    var e0 := 2 + |a|;
    var e1 := e0 + 1 + |b|;
    var e2 := e1 + 1 + |c|;
    var line := RecordLine(tag, a, b, c, d);
    RecordLineSlices(tag, a, b, c, d);
    TokenFieldSpans(line, e0, e1, e2);
    SpanSlices(line, FieldSpans(line), e0, e1, e2, a, b, c, d);
  }

  /** The slices four chained spans cut from a line. */
  lemma SpanSlices(line: string, f: seq<Span>, e0: nat, e1: nat, e2: nat, a: string, b: string, c: string, d: string)
    requires 2 <= e0 < e1 < e2 < |line|
    requires f == [Span(2, e0), Span(e0 + 1, e1), Span(e1 + 1, e2), Span(e2 + 1, |line|)]
    requires line[2..e0] == a && line[e0 + 1..e1] == b && line[e1 + 1..e2] == c && line[e2 + 1..] == d
    ensures f[2].end < |line|
    ensures line[f[0].start..f[0].end] == a && line[f[1].start..f[1].end] == b
    ensures line[f[2].start..f[2].end] == c && line[f[3].start..f[3].end] == d
  {
    assert line[e2 + 1..|line|] == line[e2 + 1..];
  }

  /**
   * A record line written with single spaces between four tokens parses to
   * those four tokens' conversions, in order.
   */
  lemma RecordLineParses(tag: char, a: string, b: string, c: string, d: string, atof: string -> real)
    requires IsToken(a) && IsToken(b) && IsToken(c) && IsToken(d)
    requires |RecordLine(tag, a, b, c, d)| < UINT_MODULUS
    ensures ParsedVec4(RecordLine(tag, a, b, c, d), atof) == Success(Vec4(atof(a), atof(b), atof(c), atof(d)))
  {
    RecordLineSpans(tag, a, b, c, d);
    ParsedVec4Fields(RecordLine(tag, a, b, c, d), atof);
  }

  /** A line of three fields makes `parseVec4` throw: the fourth field starts past the end. */
  lemma ThreeFieldLineThrows(atof: string -> real)
    ensures ParsedVec4("e 1 2 3", atof) == Failure(OutOfRange(8, 7))
  {
    var line := "e 1 2 3";
    assert FieldSpans(line)[0] == Span(2, 3);
    assert FieldSpans(line)[1] == Span(4, 5);
    assert FieldSpans(line)[2] == Span(6, 7);
    assert FieldSpans(line)[3] == Span(8, 8);
  }

  /** With one field, the second field starts past the end, so the second `substr` throws. */
  lemma OneFieldLineThrows(atof: string -> real)
    ensures ParsedVec4("e 1", atof) == Failure(OutOfRange(4, 3))
  {
    var line := "e 1";
    assert FieldSpans(line)[0] == Span(2, 3);
    assert FieldSpans(line)[1] == Span(4, 4);
  }

  /** With two fields, the third field starts past the end, so the third `substr` throws. */
  lemma TwoFieldLineThrows(atof: string -> real)
    ensures ParsedVec4("e 1 2", atof) == Failure(OutOfRange(6, 5))
  {
    var line := "e 1 2";
    assert FieldSpans(line)[0] == Span(2, 3);
    assert FieldSpans(line)[1] == Span(4, 5);
    assert FieldSpans(line)[2] == Span(6, 6);
  }

  /** A trailing space after three fields ends the third field, so the fourth is the empty slice. */
  lemma TrailingSpaceLineParses(atof: string -> real)
    ensures ParsedVec4("e 1 2 3 ", atof) == Success(Vec4(atof("1"), atof("2"), atof("3"), atof("")))
  {
    var line := "e 1 2 3 ";
    assert FieldSpans(line)[0] == Span(2, 3);
    assert FieldSpans(line)[1] == Span(4, 5);
    assert FieldSpans(line)[2] == Span(6, 7);
    assert FieldSpans(line)[3] == Span(8, 8);
    assert line[2..3] == "1" && line[4..5] == "2" && line[6..7] == "3" && line[8..8] == "";
  }

  /** Only the spaces before the first field are skipped: a run of spaces later shifts the fields. */
  lemma SpaceRunShiftsFields(atof: string -> real)
    ensures ParsedVec4("e 1   2 3 4", atof) == Success(Vec4(atof("1"), atof(" "), atof("2"), atof("3")))
  {
    var line := "e 1   2 3 4";
    assert FieldSpans(line)[0] == Span(2, 3);
    assert FieldSpans(line)[1] == Span(4, 5);
    assert FieldSpans(line)[2] == Span(6, 7);
    assert FieldSpans(line)[3] == Span(8, 9);
    assert line[2..3] == "1" && line[4..5] == " " && line[6..7] == "2" && line[8..9] == "3";
  }

  // ---------------------------------------------------------------------
  // One line
  // ---------------------------------------------------------------------

  /** Lines shorter than two characters, and lines with an unknown tag, change nothing. */
  lemma NonRecordLineChangesNothing(s: SceneState, line: string, parse: Parser)
    requires !IsRecord(line)
    ensures ApplyLine(s, line, parse) == Success(s)
  {
  }

  /** A line throws exactly when it is a record line on which the parser throws, and with its exception. */
  lemma ApplyLineFailsIff(s: SceneState, line: string, parse: Parser)
    ensures ApplyLine(s, line, parse).Failure? <==> RecordFails(line, parse)
    ensures ApplyLine(s, line, parse).Failure? ==> ApplyLine(s, line, parse).error == parse(line).error
  {
  }

  /**
   * A line tagged for a vector appends its parse to that vector, by exactly
   * one element, and changes no other field.
   */
  lemma ApplyLineAppends(s: SceneState, line: string, parse: Parser, ch: Channel)
    requires IsTagged(line, TagOf(ch)) && parse(line).Success?
    ensures ApplyLine(s, line, parse).Success?
    ensures Vector(ApplyLine(s, line, parse).value, ch) == Vector(s, ch) + [parse(line).value]
    ensures forall other :: other != ch ==> Vector(ApplyLine(s, line, parse).value, other) == Vector(s, other)
    ensures forall st :: SettingValue(ApplyLine(s, line, parse).value, st) == SettingValue(s, st)
    ensures ApplyLine(s, line, parse).value.sizes == s.sizes
  {
  }

  /** An `e` or `a` line overwrites that value with its parse and changes no other field. */
  lemma ApplyLineOverwrites(s: SceneState, line: string, parse: Parser, st: Setting)
    requires IsTagged(line, SettingTag(st)) && parse(line).Success?
    ensures ApplyLine(s, line, parse).Success?
    ensures SettingValue(ApplyLine(s, line, parse).value, st) == parse(line).value
    ensures forall other :: other != st ==> SettingValue(ApplyLine(s, line, parse).value, other) == SettingValue(s, other)
    ensures forall ch :: Vector(ApplyLine(s, line, parse).value, ch) == Vector(s, ch)
    ensures ApplyLine(s, line, parse).value.sizes == s.sizes
  {
  }

  /** A line not tagged for `ch` leaves that vector alone. */
  lemma ApplyLineOtherTag(s: SceneState, line: string, parse: Parser, ch: Channel)
    requires !IsTagged(line, TagOf(ch)) && ApplyLine(s, line, parse).Success?
    ensures Vector(ApplyLine(s, line, parse).value, ch) == Vector(s, ch)
  {
  }

  // ---------------------------------------------------------------------
  // A whole file
  // ---------------------------------------------------------------------

  /** Each vector grows by the parses of its tagged lines, in file order. */
  lemma {:induction false} ApplyLinesCollects(s: SceneState, lines: seq<string>, parse: Parser, ch: Channel)
    requires ApplyLines(s, lines, parse).Success?
    ensures ParseAll(Tagged(lines, TagOf(ch)), parse).Success?
    ensures Vector(ApplyLines(s, lines, parse).value, ch) == Vector(s, ch) + ParseAll(Tagged(lines, TagOf(ch)), parse).value
    decreases |lines|
  {
    if lines != [] {
      var next := ApplyLine(s, lines[0], parse).value;
      ApplyLinesCollects(next, lines[1..], parse, ch);
      var tail := Tagged(lines[1..], TagOf(ch));
      TaggedCons(lines, TagOf(ch));
      if IsTagged(lines[0], TagOf(ch)) {
        ApplyLineFailsIff(s, lines[0], parse);
        ApplyLineAppends(s, lines[0], parse, ch);
        ParseAllCons(lines[0], tail, parse);
        var v := parse(lines[0]).value;
        var rest := ParseAll(tail, parse).value;
        assert Vector(s, ch) + [v] + rest == Vector(s, ch) + ([v] + rest);
      } else {
        ApplyLineOtherTag(s, lines[0], parse, ch);
        assert Tagged(lines, TagOf(ch)) == [] + tail == tail;
      }
    }
  }

  /** Filtering a file: its first line, when tagged, then the filtered rest. */
  lemma TaggedCons(lines: seq<string>, tag: char)
    requires lines != []
    ensures Tagged(lines, tag) == (if IsTagged(lines[0], tag) then [lines[0]] else []) + Tagged(lines[1..], tag)
  {
  }

  /** Parsing a sequence of lines: the first line's parse, then the rest's. */
  lemma ParseAllCons(line: string, rest: seq<string>, parse: Parser)
    requires parse(line).Success? && ParseAll(rest, parse).Success?
    ensures ParseAll([line] + rest, parse) == Success([parse(line).value] + ParseAll(rest, parse).value)
  {
    assert ([line] + rest)[0] == line && ([line] + rest)[1..] == rest;
  }

  /**
   * `e` and `a` lines overwrite: after the file, the value is the parse of
   * the last line so tagged, or what it was before when there is none.
   */
  lemma {:induction false} ApplyLinesLastWins(s: SceneState, lines: seq<string>, parse: Parser, st: Setting)
    requires ApplyLines(s, lines, parse).Success?
    ensures Tagged(lines, SettingTag(st)) == [] ==>
              SettingValue(ApplyLines(s, lines, parse).value, st) == SettingValue(s, st)
    ensures Tagged(lines, SettingTag(st)) != [] ==>
              var tagged := Tagged(lines, SettingTag(st));
              parse(tagged[|tagged| - 1]) == Success(SettingValue(ApplyLines(s, lines, parse).value, st))
    decreases |lines|
  {
    if lines != [] {
      var next := ApplyLine(s, lines[0], parse).value;
      ApplyLinesLastWins(next, lines[1..], parse, st);
      var head := if IsTagged(lines[0], SettingTag(st)) then [lines[0]] else [];
      assert Tagged(lines, SettingTag(st)) == head + Tagged(lines[1..], SettingTag(st));
      if IsTagged(lines[0], SettingTag(st)) {
        ApplyLineFailsIff(s, lines[0], parse);
        ApplyLineOverwrites(s, lines[0], parse, st);
      } else {
        assert SettingValue(next, st) == SettingValue(s, st);
      }
    }
  }

  /** Applying the lines throws exactly when some record line makes the parser throw. */
  lemma {:induction false} ApplyLinesFailsIff(s: SceneState, lines: seq<string>, parse: Parser)
    ensures ApplyLines(s, lines, parse).Failure? <==> exists i :: 0 <= i < |lines| && RecordFails(lines[i], parse)
    decreases |lines|
  {
    if lines != [] {
      ApplyLineFailsIff(s, lines[0], parse);
      if ApplyLine(s, lines[0], parse).Success? {
        ApplyLinesFailsIff(ApplyLine(s, lines[0], parse).value, lines[1..], parse);
        if exists i :: 0 <= i < |lines| && RecordFails(lines[i], parse) {
          var i :| 0 <= i < |lines| && RecordFails(lines[i], parse);
          assert RecordFails(lines[1..][i - 1], parse);
        }
        if exists j :: 0 <= j < |lines[1..]| && RecordFails(lines[1..][j], parse) {
          var j :| 0 <= j < |lines[1..]| && RecordFails(lines[1..][j], parse);
          assert RecordFails(lines[j + 1], parse);
        }
      }
    }
  }

  /** A successful `ParseAll` gives one vector per line. */
  lemma {:induction false} ParseAllLength(lines: seq<string>, parse: Parser)
    requires ParseAll(lines, parse).Success?
    ensures |ParseAll(lines, parse).value| == |lines|
    decreases |lines|
  {
    if lines != [] {
      ParseAllLength(lines[1..], parse);
    }
  }

  /** A successful load is the applied lines with `sizes` derived from them. */
  lemma LoadIsApplyLines(lines: seq<string>, parse: Parser)
    ensures Load(Lines(lines), parse).Success? <==> ApplyLines(INITIAL_SCENE, lines, parse).Success?
    ensures Load(Lines(lines), parse).Success? ==>
              var s := ApplyLines(INITIAL_SCENE, lines, parse).value;
              Load(Lines(lines), parse).value == s.(sizes := IVec3(|s.objects|, |s.directions|, 1))
  {
  }

  /** A successful load: every vector holds the parses of its tagged lines, in file order. */
  lemma LoadVectors(lines: seq<string>, parse: Parser, ch: Channel)
    requires Load(Lines(lines), parse).Success?
    ensures ParseAll(Tagged(lines, TagOf(ch)), parse) == Success(Vector(Load(Lines(lines), parse).value, ch))
  {
    LoadIsApplyLines(lines, parse);
    var s := ApplyLines(INITIAL_SCENE, lines, parse).value;
    assert Vector(Load(Lines(lines), parse).value, ch) == Vector(s, ch);
    ApplyLinesCollects(INITIAL_SCENE, lines, parse, ch);
    assert Vector(INITIAL_SCENE, ch) == [];
    var parsed := ParseAll(Tagged(lines, TagOf(ch)), parse);
    assert Vector(s, ch) == [] + parsed.value == parsed.value;
  }

  /**
   * A successful load: `eye` and `ambient` are the parse of the last line
   * so tagged, or zero when there is none.
   */
  lemma LoadSettings(lines: seq<string>, parse: Parser, st: Setting)
    requires Load(Lines(lines), parse).Success?
    ensures Tagged(lines, SettingTag(st)) == [] ==> SettingValue(Load(Lines(lines), parse).value, st) == ZERO_VEC4
    ensures Tagged(lines, SettingTag(st)) != [] ==>
              var tagged := Tagged(lines, SettingTag(st));
              parse(tagged[|tagged| - 1]) == Success(SettingValue(Load(Lines(lines), parse).value, st))
  {
    ApplyLinesLastWins(INITIAL_SCENE, lines, parse, st);
  }

  /** A successful load: `sizes` is (number of `o` lines, number of `d` lines, 1). */
  lemma LoadSizes(lines: seq<string>, parse: Parser)
    requires Load(Lines(lines), parse).Success?
    ensures Load(Lines(lines), parse).value.sizes == IVec3(|Tagged(lines, 'o')|, |Tagged(lines, 'd')|, 1)
  {
    LoadVectors(lines, parse, Objects);
    LoadVectors(lines, parse, Directions);
    ParseAllLength(Tagged(lines, 'o'), parse);
    ParseAllLength(Tagged(lines, 'd'), parse);
  }

  /** Loading throws exactly when some record line of the file makes the parser throw. */
  lemma LoadFailsIff(lines: seq<string>, parse: Parser)
    ensures Load(Lines(lines), parse).Failure? <==> exists i :: 0 <= i < |lines| && RecordFails(lines[i], parse)
  {
    ApplyLinesFailsIff(INITIAL_SCENE, lines, parse);
  }

  /** A file that cannot be opened gives the empty scene with `sizes` zero. */
  lemma LoadOpenFailed(parse: Parser)
    ensures Load(OpenFailed, parse).Success?
    ensures forall ch :: Vector(Load(OpenFailed, parse).value, ch) == []
    ensures Load(OpenFailed, parse).value.sizes == IVec3(0, 0, 0)
  {
  }

  /** The example scene file `FIXTURE`: an eye, an ambient light, one object with its color, and one point light with its intensity. */
  const FIXTURE: seq<string> := [
    "e 0 0 5 32",
    "a 0.1 0.1 0.1 0",
    "o 0 0 0 1",
    "c 1 0 0 0",
    "p 0 5 0 0.9",
    "i 1 1 1 1"]

  /**
   * A file of six record lines tagged `e`, `a`, `o`, `c`, `p`, `i`, in that
   * order, each of which parses.
   */
  lemma SixRecordLinesLoad(l0: string, l1: string, l2: string, l3: string, l4: string, l5: string, parse: Parser)
    requires IsTagged(l0, 'e') && IsTagged(l1, 'a') && IsTagged(l2, 'o')
    requires IsTagged(l3, 'c') && IsTagged(l4, 'p') && IsTagged(l5, 'i')
    requires parse(l0).Success? && parse(l1).Success? && parse(l2).Success?
    requires parse(l3).Success? && parse(l4).Success? && parse(l5).Success?
    ensures Load(Lines([l0, l1, l2, l3, l4, l5]), parse) == Success(SceneState(
      parse(l0).value, parse(l1).value, IVec3(1, 0, 1),
      [parse(l2).value], [parse(l4).value], [], [parse(l3).value], [parse(l5).value]))
  {
    var s1 := INITIAL_SCENE.(eye := parse(l0).value);
    var s2 := s1.(ambient := parse(l1).value);
    var s3 := s2.(objects := [] + [parse(l2).value]);
    var s4 := s3.(colors := [] + [parse(l3).value]);
    var s5 := s4.(lights := [] + [parse(l4).value]);
    var s6 := s5.(intensities := [] + [parse(l5).value]);
    ApplyLinesStep(s5, l5, [], parse, s6);
    ApplyLinesStep(s4, l4, [l5], parse, s5);
    ApplyLinesStep(s3, l3, [l4, l5], parse, s4);
    ApplyLinesStep(s2, l2, [l3, l4, l5], parse, s3);
    ApplyLinesStep(s1, l1, [l2, l3, l4, l5], parse, s2);
    ApplyLinesStep(INITIAL_SCENE, l0, [l1, l2, l3, l4, l5], parse, s1);
    assert s6.objects == [parse(l2).value] && s6.colors == [parse(l3).value];
    assert s6.lights == [parse(l4).value] && s6.intensities == [parse(l5).value];
    assert [l0] + [l1, l2, l3, l4, l5] == [l0, l1, l2, l3, l4, l5];
    assert [l1] + [l2, l3, l4, l5] == [l1, l2, l3, l4, l5];
    assert [l2] + [l3, l4, l5] == [l2, l3, l4, l5];
    assert [l3] + [l4, l5] == [l3, l4, l5];
    assert [l4] + [l5] == [l4, l5];
    assert [l5] + [] == [l5];
  }

  /** The first line of a file applied, then the rest. */
  lemma ApplyLinesStep(s: SceneState, line: string, rest: seq<string>, parse: Parser, next: SceneState)
    requires ApplyLine(s, line, parse) == Success(next)
    ensures ApplyLines(s, [line] + rest, parse) == ApplyLines(next, rest, parse)
  {
    assert ([line] + rest)[0] == line && ([line] + rest)[1..] == rest;
  }

  /** The lines of the example scene file `FIXTURE`, each parsed on its own (one lemma per line keeps each proof small). */
  lemma FixtureLine0(atof: string -> real)
    ensures ParsedVec4("e 0 0 5 32", atof) == Success(Vec4(atof("0"), atof("0"), atof("5"), atof("32")))
  {
    assert "e 0 0 5 32" == RecordLine('e', "0", "0", "5", "32");
    RecordLineParses('e', "0", "0", "5", "32", atof);
  }

  lemma FixtureLine1(atof: string -> real)
    ensures ParsedVec4("a 0.1 0.1 0.1 0", atof) == Success(Vec4(atof("0.1"), atof("0.1"), atof("0.1"), atof("0")))
  {
    assert "a 0.1 0.1 0.1 0" == RecordLine('a', "0.1", "0.1", "0.1", "0");
    RecordLineParses('a', "0.1", "0.1", "0.1", "0", atof);
  }

  lemma FixtureLine2(atof: string -> real)
    ensures ParsedVec4("o 0 0 0 1", atof) == Success(Vec4(atof("0"), atof("0"), atof("0"), atof("1")))
  {
    assert "o 0 0 0 1" == RecordLine('o', "0", "0", "0", "1");
    RecordLineParses('o', "0", "0", "0", "1", atof);
  }

  lemma FixtureLine3(atof: string -> real)
    ensures ParsedVec4("c 1 0 0 0", atof) == Success(Vec4(atof("1"), atof("0"), atof("0"), atof("0")))
  {
    assert "c 1 0 0 0" == RecordLine('c', "1", "0", "0", "0");
    RecordLineParses('c', "1", "0", "0", "0", atof);
  }

  lemma FixtureLine4(atof: string -> real)
    ensures ParsedVec4("p 0 5 0 0.9", atof) == Success(Vec4(atof("0"), atof("5"), atof("0"), atof("0.9")))
  {
    assert "p 0 5 0 0.9" == RecordLine('p', "0", "5", "0", "0.9");
    RecordLineParses('p', "0", "5", "0", "0.9", atof);
  }

  lemma FixtureLine5(atof: string -> real)
    ensures ParsedVec4("i 1 1 1 1", atof) == Success(Vec4(atof("1"), atof("1"), atof("1"), atof("1")))
  {
    assert "i 1 1 1 1" == RecordLine('i', "1", "1", "1", "1");
    RecordLineParses('i', "1", "1", "1", "1", atof);
  }

  /** The example scene file `FIXTURE`, loaded with the C library's `atof` whatever it is. */
  lemma FixtureLoads(atof: string -> real)
    ensures Load(Lines(FIXTURE), RecordParser(atof)) == Success(SceneState(
      Vec4(atof("0"), atof("0"), atof("5"), atof("32")),
      Vec4(atof("0.1"), atof("0.1"), atof("0.1"), atof("0")),
      IVec3(1, 0, 1),
      [Vec4(atof("0"), atof("0"), atof("0"), atof("1"))],
      [Vec4(atof("0"), atof("5"), atof("0"), atof("0.9"))],
      [],
      [Vec4(atof("1"), atof("0"), atof("0"), atof("0"))],
      [Vec4(atof("1"), atof("1"), atof("1"), atof("1"))]))
  {
    FixtureLine0(atof);
    FixtureLine1(atof);
    FixtureLine2(atof);
    FixtureLine3(atof);
    FixtureLine4(atof);
    FixtureLine5(atof);
    var parse := RecordParser(atof);
    assert forall k :: 0 <= k < 6 ==> parse(FIXTURE[k]) == ParsedVec4(FIXTURE[k], atof);
    SixRecordLinesLoad(FIXTURE[0], FIXTURE[1], FIXTURE[2], FIXTURE[3], FIXTURE[4], FIXTURE[5], parse);
    assert [FIXTURE[0], FIXTURE[1], FIXTURE[2], FIXTURE[3], FIXTURE[4], FIXTURE[5]] == FIXTURE;
  }

  /**
   * With a conversion that reads the file's decimal literals as their values,
   * the example scene file `FIXTURE` gives the expected scene: one object with its color,
   * one point light with its intensity, no directions, `sizes` (1, 0, 1).
   */
  lemma FixtureValues(atof: string -> real)
    requires atof("0") == 0.0 && atof("1") == 1.0 && atof("5") == 5.0 && atof("32") == 32.0
    requires atof("0.1") == 0.1 && atof("0.9") == 0.9
    ensures Load(Lines(FIXTURE), RecordParser(atof)) == Success(SceneState(
      Vec4(0.0, 0.0, 5.0, 32.0),
      Vec4(0.1, 0.1, 0.1, 0.0),
      IVec3(1, 0, 1),
      [Vec4(0.0, 0.0, 0.0, 1.0)],
      [Vec4(0.0, 5.0, 0.0, 0.9)],
      [],
      [Vec4(1.0, 0.0, 0.0, 0.0)],
      [Vec4(1.0, 1.0, 1.0, 1.0)]))
  {
    FixtureLoads(atof);
  }

  /** A file of one `o` line that parses: one object, no color, and `sizes` counts it. */
  lemma SingleObjectLoad(line: string, parse: Parser)
    requires IsTagged(line, 'o') && parse(line).Success?
    ensures Load(Lines([line]), parse)
            == Success(INITIAL_SCENE.(objects := [parse(line).value], sizes := IVec3(1, 0, 1)))
  {
    var s1 := INITIAL_SCENE.(objects := [] + [parse(line).value]);
    ApplyLinesStep(INITIAL_SCENE, line, [], parse, s1);
    assert [line] + [] == [line];
    assert s1.objects == [parse(line).value];
    assert Load(Lines([line]), parse) == Success(s1.(sizes := IVec3(1, 0, 1)));
  }

  /** Nothing ties colors to objects: an `o` line without a `c` line loads with the two counts apart. */
  lemma ObjectsWithoutColorsLoad(atof: string -> real)
    ensures Load(Lines(["o 0 0 0 1"]), RecordParser(atof)).Success?
    ensures |Load(Lines(["o 0 0 0 1"]), RecordParser(atof)).value.objects| == 1
    ensures |Load(Lines(["o 0 0 0 1"]), RecordParser(atof)).value.colors| == 0
  {
    FixtureLine2(atof);
    SingleObjectLoad("o 0 0 0 1", RecordParser(atof));
  }

  // ---------------------------------------------------------------------
  // loadtoShader
  // ---------------------------------------------------------------------

  /**
   * The eight writes go to slots 0 to 7 in order; every array write's count
   * is its payload's length: 1 for eye and ambient, the vector's length for
   * objects, colors, lights, directions and intensities.
   */
  lemma UploadPlanLayout(s: SceneState)
    ensures |UploadPlan(s)| == 8
    ensures forall i :: 0 <= i < 8 ==> UploadPlan(s)[i].Slot() == i
    ensures forall i :: 0 <= i < 7 ==> UploadPlan(s)[i].Uniform4v? && UploadPlan(s)[i].count == |UploadPlan(s)[i].data|
    ensures UploadPlan(s)[7] == Uniform3vi(7, 1, s.sizes)
  {
  }

  /** The upload as written is defined exactly when none of the five vectors is empty. */
  lemma UploadAsWrittenDefinedIff(s: SceneState)
    ensures UploadAsWritten(s).Some? <==> forall ch :: Vector(s, ch) != []
    ensures UploadAsWritten(s).Some? ==> UploadAsWritten(s).value == UploadPlan(s)
  {
    if UploadAsWritten(s).None? {
      if s.objects == [] { assert Vector(s, Objects) == []; }
      else if s.colors == [] { assert Vector(s, Colors) == []; }
      else if s.lights == [] { assert Vector(s, Lights) == []; }
      else if s.directions == [] { assert Vector(s, Directions) == []; }
      else { assert Vector(s, Intensities) == []; }
    }
  }

  /**
   * The example scene file `FIXTURE` has no `d` line, so the upload as written indexes
   * the empty `directions` vector; the upload of the full sequences is
   * defined for it and reads back the scene.
   */
  lemma FixtureUploadUndefined(atof: string -> real, before: seq<UniformWrite>)
    ensures Load(Lines(FIXTURE), RecordParser(atof)).Success?
    ensures UploadAsWritten(Load(Lines(FIXTURE), RecordParser(atof)).value) == None
    ensures UniformScene(before + UploadPlan(Load(Lines(FIXTURE), RecordParser(atof)).value))
            == Some(Load(Lines(FIXTURE), RecordParser(atof)).value)
  {
    FixtureLoads(atof);
    UploadReadsBack(before, Load(Lines(FIXTURE), RecordParser(atof)).value);
  }

  /** The most recent write to `slot`: what the shader's uniform in that slot holds. */
  function LastWrite(writes: seq<UniformWrite>, slot: int): (r: Option<UniformWrite>)
    ensures r.Some? ==> r.value in writes && r.value.Slot() == slot
    decreases |writes|
  {
    if writes == [] then None
    else if writes[|writes| - 1].Slot() == slot then Some(writes[|writes| - 1])
    else LastWrite(writes[..|writes| - 1], slot)
  }

  /** The vec4 array held in `slot`, when the last write there is an array write whose count fits its payload. */
  function ArrayAt(writes: seq<UniformWrite>, slot: int): Option<seq<Vec4>> {
    match LastWrite(writes, slot)
    case Some(Uniform4v(_, n, data)) => if n == |data| then Some(data) else None
    case _ => None
  }

  /** The integer triple held in `slot`. */
  function TripleAt(writes: seq<UniformWrite>, slot: int): Option<IVec3> {
    match LastWrite(writes, slot)
    case Some(Uniform3vi(_, 1, v)) => Some(v)
    case _ => None
  }

  /** The scene as the shader reads it back from its eight uniform slots. */
  function UniformScene(writes: seq<UniformWrite>): Option<SceneState> {
    match (ArrayAt(writes, 0), ArrayAt(writes, 1), ArrayAt(writes, 2), ArrayAt(writes, 3),
           ArrayAt(writes, 4), ArrayAt(writes, 5), ArrayAt(writes, 6), TripleAt(writes, 7))
    case (Some(e), Some(o), Some(c), Some(l), Some(d), Some(i), Some(a), Some(z)) =>
      if |e| == 1 && |a| == 1 then Some(SceneState(e[0], a[0], z, o, l, d, c, i)) else None
    case _ => None
  }

  /** Writes appended later hide earlier writes to the same slot. */
  lemma {:induction false} LastWriteAppend(earlier: seq<UniformWrite>, later: seq<UniformWrite>, slot: int)
    ensures LastWrite(earlier + later, slot) ==
              if LastWrite(later, slot).Some? then LastWrite(later, slot) else LastWrite(earlier, slot)
    decreases |later|
  {
    if later == [] {
      assert earlier + later == earlier;
    } else {
      var all := earlier + later;
      assert all[|all| - 1] == later[|later| - 1];
      assert all[..|all| - 1] == earlier + later[..|later| - 1];
      LastWriteAppend(earlier, later[..|later| - 1], slot);
    }
  }

  /**
   * Whatever the shader held before, after `loadtoShader` its eight slots
   * read back exactly the scene: every field is uploaded, each to the slot
   * the shader expects it in.
   */
  lemma UploadReadsBack(before: seq<UniformWrite>, s: SceneState)
    ensures UniformScene(before + UploadPlan(s)) == Some(s)
  {
    var plan := UploadPlan(s);
    forall slot | 0 <= slot < 8
      ensures LastWrite(before + plan, slot) == Some(plan[slot])
    {
      LastWriteAppend(before, plan, slot);
      LastWriteInPlan(s, slot);
    }
  }

  /** The last write to a slot is the one after which no write goes to that slot. */
  lemma {:induction false} LastWriteIs(writes: seq<UniformWrite>, i: nat, slot: int)
    requires i < |writes| && writes[i].Slot() == slot
    requires forall j :: i < j < |writes| ==> writes[j].Slot() != slot
    ensures LastWrite(writes, slot) == Some(writes[i])
    decreases |writes|
  {
    if i < |writes| - 1 {
      var prefix := writes[..|writes| - 1];
      assert prefix[i] == writes[i];
      LastWriteIs(prefix, i, slot);
    }
  }

  /** Within the upload, each slot's last write is the one the plan makes to it. */
  lemma LastWriteInPlan(s: SceneState, slot: int)
    requires 0 <= slot < 8
    ensures LastWrite(UploadPlan(s), slot) == Some(UploadPlan(s)[slot])
  {
    UploadPlanLayout(s);
    LastWriteIs(UploadPlan(s), slot, slot);
  }
}
