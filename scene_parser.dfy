/**
 * The scene reader: `parseVec4`, which cuts a record line into four
 * space-delimited fields, the constructor that dispatches each line of the
 * file on its tag character, and `loadtoShader`, which hands the parsed
 * scene to the shader's eight uniform slots.
 *
 * Each imperative operation is specified by a function on values
 * (`ParsedVec4`, `ApplyLine`, `ApplyLines`, `Load`, `UploadPlan`); the
 * properties of those functions are proved in module SceneProperties.
 */
module SceneParser {
  import opened Wrappers
  import opened Glm
  import opened Tokenizer
  import opened Uniforms

  // ---------------------------------------------------------------------
  // parseVec4: the field layout of a record line
  // ---------------------------------------------------------------------

  /** The first index at or after `i` that is not a space, or `i` itself once it is at or past the end. */
  function SkipSpaces(line: string, i: nat): (r: nat)
    ensures i <= r
    ensures i <= |line| ==> r <= |line|
    ensures i >= |line| ==> r == i
    ensures r < |line| ==> line[r] != ' '
    ensures forall k :: i <= k < r ==> k < |line| && line[k] == ' '
    decreases |line| - i
  {
    if i < |line| && line[i] == ' ' then SkipSpaces(line, i + 1) else i
  }

  /** The slice `[start, end)` of a line that holds one field. */
  datatype Span = Span(start: nat, end: nat)

  /** A field starting at `start` ends at the next space, found by `FindNextChar`. */
  function SpanFrom(line: string, start: nat): Span {
    Span(start, NextCharIndex(start, line, |line|, ' '))
  }

  /**
   * The four fields of a record line: the first starts after the spaces
   * that follow the tag, each later one just past the delimiter that ended
   * the previous one.
   */
  function FieldSpans(line: string): (f: seq<Span>)
    ensures |f| == 4
  {
    var f0 := SpanFrom(line, SkipSpaces(line, 2));
    var f1 := SpanFrom(line, f0.end + 1);
    var f2 := SpanFrom(line, f1.end + 1);
    var f3 := SpanFrom(line, f2.end + 1);
    [f0, f1, f2, f3]
  }

  /** What `parseVec4` returns for `line`, or the exception its first failing field throws. */
  function ParsedVec4(line: string, atof: string -> real): Result<Vec4, SubstrError>
  {
    var f := FieldSpans(line);
    var x :- ParseFloatValue(line, f[0].start, f[0].end, atof);
    var y :- ParseFloatValue(line, f[1].start, f[1].end, atof);
    var z :- ParseFloatValue(line, f[2].start, f[2].end, atof);
    var w :- ParseFloatValue(line, f[3].start, f[3].end, atof);
    Success(Vec4(x, y, z, w))
  }

  /** `scene::parseVec4`: skip the spaces after the tag, then read four fields. */
  method ParseVec4(line: string, atof: string -> real) returns (r: Result<Vec4, SubstrError>)
    ensures r == ParsedVec4(line, atof)
  {
    var length := |line|;
    var start := 2;
    while start < length
      invariant 2 <= start
      invariant SkipSpaces(line, start) == SkipSpaces(line, 2)
    {
      if line[start] != ' ' {
        break;
      }
      start := start + 1;
    }
    ghost var f := FieldSpans(line);
    assert start == SkipSpaces(line, 2);
    var end := FindNextChar(start, line, length, ' ');
    assert Span(start, end) == f[0];
    var x :- ParseFloatValue(line, start, end, atof);

    start := end + 1;
    end := FindNextChar(start, line, length, ' ');
    assert Span(start, end) == f[1];
    var y :- ParseFloatValue(line, start, end, atof);

    start := end + 1;
    end := FindNextChar(start, line, length, ' ');
    assert Span(start, end) == f[2];
    var z :- ParseFloatValue(line, start, end, atof);

    start := end + 1;
    end := FindNextChar(start, line, length, ' ');
    assert Span(start, end) == f[3];
    var w :- ParseFloatValue(line, start, end, atof);

    r := Success(Vec4(x, y, z, w));
  }

  // ---------------------------------------------------------------------
  // The scene and its line dispatcher
  // ---------------------------------------------------------------------

  /** The fields of a `scene` object, as one value. */
  datatype SceneState = SceneState(
    eye: Vec4,
    ambient: Vec4,
    sizes: IVec3,
    objects: seq<Vec4>,
    lights: seq<Vec4>,
    directions: seq<Vec4>,
    colors: seq<Vec4>,
    intensities: seq<Vec4>)

  /** A scene before its constructor body runs: default vectors, empty sequences. */
  const INITIAL_SCENE: SceneState :=
    SceneState(ZERO_VEC4, ZERO_VEC4, IVec3(0, 0, 0), [], [], [], [], [])

  /** The scene file: its lines, or the failure to open it. */
  datatype SceneFile = OpenFailed | Lines(lines: seq<string>)

  /** The tags the dispatcher acts on; a line with any other first character is ignored. */
  const RECORD_TAGS: seq<char> := ['e', 'a', 'o', 'c', 'd', 'p', 'i']

  /** A line the dispatcher parses: two or more characters, a recognised tag first. */
  predicate IsRecord(line: string) {
    |line| >= 2 && line[0] in RECORD_TAGS
  }

  /** Where the parse of a line tagged `tag` goes: `e` and `a` overwrite, the others append. */
  function Store(s: SceneState, tag: char, v: Vec4): SceneState {
    match tag
    case 'e' => s.(eye := v)
    case 'a' => s.(ambient := v)
    case 'o' => s.(objects := s.objects + [v])
    case 'c' => s.(colors := s.colors + [v])
    case 'd' => s.(directions := s.directions + [v])
    case 'p' => s.(lights := s.lights + [v])
    case 'i' => s.(intensities := s.intensities + [v])
    case _ => s
  }

  /** The field parser the dispatcher applies to record lines. */
  function RecordParser(atof: string -> real): string -> Result<Vec4, SubstrError> {
    line => ParsedVec4(line, atof)
  }

  /**
   * What one line of the file does to the scene, or the exception it
   * throws, given the parser for record lines (`RecordParser(atof)` below).
   */
  function ApplyLine(s: SceneState, line: string, parse: string -> Result<Vec4, SubstrError>): Result<SceneState, SubstrError>
  {
    if !IsRecord(line) then Success(s)
    else
      var v :- parse(line);
      Success(Store(s, line[0], v))
  }

  /** The lines applied one after another, stopping at the first exception. */
  function ApplyLines(s: SceneState, lines: seq<string>, parse: string -> Result<Vec4, SubstrError>): Result<SceneState, SubstrError>
    decreases |lines|
  {
    if lines == [] then Success(s)
    else
      var next :- ApplyLine(s, lines[0], parse);
      ApplyLines(next, lines[1..], parse)
  }

  /** The scene the constructor builds from `file`, or the exception that escapes it. */
  function Load(file: SceneFile, parse: string -> Result<Vec4, SubstrError>): Result<SceneState, SubstrError>
  {
    match file
    case OpenFailed => Success(INITIAL_SCENE.(sizes := IVec3(0, 0, 0)))
    case Lines(lines) =>
      var s :- ApplyLines(INITIAL_SCENE, lines, parse);
      Success(s.(sizes := IVec3(|s.objects|, |s.directions|, 1)))
  }

  /** The eight writes of `loadtoShader`, in the order it issues them. */
  function UploadPlan(s: SceneState): seq<UniformWrite>
  {
    [ Uniform4v(0, 1, [s.eye]),
      Uniform4v(1, |s.objects|, s.objects),
      Uniform4v(2, |s.colors|, s.colors),
      Uniform4v(3, |s.lights|, s.lights),
      Uniform4v(4, |s.directions|, s.directions),
      Uniform4v(5, |s.intensities|, s.intensities),
      Uniform4v(6, 1, [s.ambient]),
      Uniform3vi(7, 1, s.sizes) ]
  }

  /**
   * `loadtoShader` as written passes `&v[0]` for each of the five vectors,
   * and indexing an empty `std::vector` is undefined behaviour: the upload
   * is defined (and is then `UploadPlan`) only when no vector is empty.
   */
  function UploadAsWritten(s: SceneState): Option<seq<UniformWrite>> {
    if s.objects != [] && s.colors != [] && s.lights != [] && s.directions != [] && s.intensities != []
    then Some(UploadPlan(s))
    else None
  }

  /** `class scene`. */
  class Scene {
    var eye: Vec4
    var ambient: Vec4
    var sizes: IVec3
    var objects: seq<Vec4>
    var lights: seq<Vec4>
    var directions: seq<Vec4>
    var colors: seq<Vec4>
    var intensities: seq<Vec4>

    function State(): SceneState
      reads this
    {
      SceneState(eye, ambient, sizes, objects, lights, directions, colors, intensities)
    }

    /** The members as default-constructed, before the constructor body. */
    constructor Empty()
      ensures State() == INITIAL_SCENE
    {
      eye, ambient, sizes := ZERO_VEC4, ZERO_VEC4, IVec3(0, 0, 0);
      objects, lights, directions, colors, intensities := [], [], [], [], [];
    }

    /**
     * The body of the constructor's read loop for one line: skip a short
     * line, otherwise switch on its first character. `err` is the exception
     * `parseVec4` throws, if it throws; the scene is then left as it was.
     */
    method Dispatch(line: string, atof: string -> real) returns (err: Option<SubstrError>)
      modifies this
      ensures ApplyLine(old(State()), line, RecordParser(atof)).Success? ==>
                err == None && State() == ApplyLine(old(State()), line, RecordParser(atof)).value
      ensures ApplyLine(old(State()), line, RecordParser(atof)).Failure? ==>
                err == Some(ApplyLine(old(State()), line, RecordParser(atof)).error) && State() == old(State())
    {
      err := None;
      if |line| < 2 {
        return;
      }
      var tag := line[0];
      if tag !in RECORD_TAGS {
        return;
      }
      var v := ParseVec4(line, atof);
      if v.Failure? {
        return Some(v.error);
      }
      match tag
      case 'e' => eye := v.value;
      case 'a' => ambient := v.value;
      case 'o' => objects := objects + [v.value];
      case 'c' => colors := colors + [v.value];
      case 'd' => directions := directions + [v.value];
      case 'p' => lights := lights + [v.value];
      case 'i' => intensities := intensities + [v.value];
    }

    /**
     * `scene::scene(fileName)`: read every line of the file through
     * `Dispatch`, then derive `sizes`; when the file cannot be opened, only
     * set `sizes` to zeros. An exception escaping a line ends the
     * construction with no scene.
     */
    static method Open(file: SceneFile, atof: string -> real) returns (r: Result<Scene, SubstrError>)
      ensures r.Success? ==> fresh(r.value) && Load(file, RecordParser(atof)) == Success(r.value.State())
      ensures r.Failure? ==> Load(file, RecordParser(atof)) == Failure(r.error)
    {
      var sc := new Scene.Empty();
      match file {
        case OpenFailed =>
          sc.sizes := IVec3(0, 0, 0);
        case Lines(lines) =>
          var i := 0;
          while i < |lines|
            invariant 0 <= i <= |lines|
            invariant ApplyLines(sc.State(), lines[i..], RecordParser(atof)) == ApplyLines(INITIAL_SCENE, lines, RecordParser(atof))
          {
            assert lines[i..][0] == lines[i] && lines[i..][1..] == lines[i + 1..];
            var err := sc.Dispatch(lines[i], atof);
            if err.Some? {
              return Failure(err.value);
            }
            i := i + 1;
          }
          sc.sizes := IVec3(|sc.objects|, |sc.directions|, 1);
      }
      r := Success(sc);
    }

    /** `scene::loadtoShader`: the eight uniform writes, appended to the shader's log. */
    method LoadToShader(shader: UniformLog)
      modifies shader
      ensures shader.writes == old(shader.writes) + UploadPlan(State())
    {
      shader.SetUniform4v(0, 1, [eye]);
      shader.SetUniform4v(1, |objects|, objects);
      shader.SetUniform4v(2, |colors|, colors);
      shader.SetUniform4v(3, |lights|, lights);
      shader.SetUniform4v(4, |directions|, directions);
      shader.SetUniform4v(5, |intensities|, intensities);
      shader.SetUniform4v(6, 1, [ambient]);
      shader.SetUniform3vi(7, 1, sizes);
    }
  }
}
