# Scene reader of the ray tracer, in Dafny

This project models the ray tracer's scene reader, `engine2D/sceneParser.h` and
`engine2D/sceneParser.cpp`. The scene file is plain text, one record per line. A line's first
character is its tag:

- `e` is the eye and `a` the ambient light. A later line overwrites an earlier one.
- `o`, `c`, `d`, `p` and `i` are objects, colors, light directions, light positions and light
  intensities. Each line appends to its vector.

After the tag come four space-separated numbers. Lines shorter than two characters, and lines with any
other tag, are ignored. When reading is done, the constructor sets `sizes` to (number of objects, number of directions, 1).
`loadtoShader` then sends the eight values to the shader's uniform slots 0 to 7.

Modules:

- `Tokenizer` (`tokenizer.dfy`): the three static helpers of the header.
  - `FindNextChar` is a loop proved against the function `NextCharIndex`.
  - `ParseFloatValue` and `ParseIndexValue` are `substr` followed by `atof` or `atoi`.
  - The helpers keep the C++ details:
    - the unsigned `end - start` wraps modulo 2^32;
    - `substr` throws when its start is past the end;
    - the scan reads the terminating NUL at index `length`.
- `SceneParser` (`scene_parser.dfy`): the parser and the scene object.
  - `ParseVec4` is the method version of `parseVec4`, with its skip-spaces loop. It is proved equal to
    the function `ParsedVec4`, which is defined through the field layout `FieldSpans`.
  - The `scene` class is `Scene`, with the source's eight fields under their own names. The class
    and method names change case (`scene` is `Scene`, `parseVec4` is `ParseVec4`, `loadtoShader` is
    `LoadToShader`).
  - The constructor is split in three: `Empty` builds the default scene, `Dispatch` is one pass of
    the loop body, and `Open` is the constructor as a whole.
    `LoadToShader` issues the eight setter calls.
  - Each of these methods is proved against a function on values: `ApplyLine`, `Load` and
    `UploadPlan`.
- `Uniforms` (`uniforms.dfy`): the shader, reduced to a log of the setter calls it receives.
- `SceneProperties` (`scene_properties.dfy`): the properties, as lemmas.
- `Glm` and `Wrappers` hold the vector types and the Option/Result types.

`atof` and `atoi` are parameters of type `string -> real` and `string -> Int32`, so every result holds
whatever the C library does. The dispatcher lemmas go further: they are stated for any record parser
`parse`, and the scene reader uses `RecordParser(atof)`.

Malformed record data is not always absorbed silently. `parseVec4` throws `std::out_of_range` exactly
when the third field is ended by the end of the line rather than by a space. The first `substr` whose
start lies past the end of the line throws: the fourth for `e 1 2 3`, the third for `e 1 2`, and the
second for `e 1`. Many malformed lines still load without an exception:

- `e 1 2 3 ` (a trailing space) loads as (`atof("1")`, `atof("2")`, `atof("3")`, `atof("")`);
- in `e 1   2 3 4` a run of spaces shifts the fields, giving (`atof("1")`, `atof(" ")`, `atof("2")`,
  `atof("3")`), and the `4` is dropped.

Nothing catches the exception: the scene is built at `rayTracer/main.cpp:13` with no handler, so it
ends the process. The model therefore carries it as `Failure(OutOfRange(pos, size))`:

- through `ParsedVec4`, `ApplyLine`, `ApplyLines` and `Load`;
- as the `Some(error)` return of `Dispatch`;
- as the `Failure` result of `Open`.

`ParsedVec4Fields` states the rule above. `OneFieldLineThrows`, `TwoFieldLineThrows` and
`ThreeFieldLineThrows` prove the three lines that throw. `TrailingSpaceLineParses` and
`SpaceRunShiftsFields` prove the two lines that load. `LoadFailsIff` states exactly when a load
throws.

## Model

| member | source | states |
|---|---|---|
| Tokenizer.NextCharIndex | engine2D/sceneParser.h:20-31 | where the scan stops: `start` when `start >= length`; otherwise the first index after `start` that holds `token`, or `length` when there is none. The character at `start` is never examined. |
| Tokenizer.FindNextChar | engine2D/sceneParser.h:20-31 | the loop (increment, then compare, reading the NUL at `length`) returns exactly `NextCharIndex` |
| Tokenizer.Substr | engine2D/sceneParser.h:38-41 | `substr(pos, count)` throws `OutOfRange(pos, size)` exactly when `pos > size`. Otherwise it returns `min(count, size - pos)` characters equal to the line's characters from `pos` on. |
| Tokenizer.UnsignedDiff | engine2D/sceneParser.h:40 | the unsigned `end - start` is below 2^32. It equals `end - start` when `start <= end`, and `2^32 + end - start` when `end < start`. |
| Tokenizer.ParseFloatValue | engine2D/sceneParser.h:38-41 | throws exactly when `start` lies past the end. When `start <= end <= size` it converts the slice `[start, end)`. When `end < start`, the wrapped count reaches the end, so it converts the whole tail. |
| Tokenizer.ParseIndexValue | engine2D/sceneParser.h:33-36 | throws exactly when `start` lies past the end. The result is an unsigned value below 2^32: `atoi - 1` for a positive `atoi`, and `atoi - 1 + 2^32` (the unsigned wrap) for zero or a negative value. |
| SceneParser.SkipSpaces | engine2D/sceneParser.cpp:8-15 | the skip loop stops at the first non-space index at or after its start, or at the end of the line, and every index it passes holds a space |
| SceneParser.ParseVec4 | engine2D/sceneParser.cpp:3-39 | the method (skip loop, four scans, four conversions, the first exception propagated) returns exactly `ParsedVec4` |
| SceneParser.Scene.Empty | engine2D/sceneParser.h:11-18 | a new scene starts with default vectors and empty sequences |
| SceneParser.Scene.Dispatch | engine2D/sceneParser.cpp:67-99 | one line changes the scene exactly as `ApplyLine` says. When `parseVec4` throws, the error is returned and the scene is unchanged. |
| SceneParser.Scene.Open | engine2D/sceneParser.cpp:55-112 | the constructor yields a fresh scene whose state is `Load(file)`, or the exception `Load(file)` reports. This covers the read loop, `sizes`, and the branch where the file cannot be opened. |
| SceneParser.Scene.LoadToShader | engine2D/sceneParser.cpp:41-52 | appends exactly the eight writes of `UploadPlan` to the shader's log, in source order, and nothing else |
| Uniforms.UniformLog.constructor | engine2D/shader.cpp:8-36 | a fresh shader has received no writes |
| Uniforms.UniformLog.SetUniform4v | engine2D/shader.cpp:125-131 | a vec4-array write is appended to the log |
| Uniforms.UniformLog.SetUniform3vi | engine2D/shader.cpp:134-140 | an integer-triple write is appended to the log |
| SceneProperties.FirstFieldStart | engine2D/sceneParser.cpp:8-15 | the first field starts at the first non-space index at or after 2, and only spaces come before it |
| SceneProperties.FieldSpansChain | engine2D/sceneParser.cpp:17-32 | each field starts one past the previous field's end, and each ends where `FindNextChar` stops from its start |
| SceneProperties.ParsedVec4Fields | engine2D/sceneParser.cpp:3-36 | `parseVec4` succeeds exactly when the line has two or more characters and its third field ends at a space rather than at the end of the line. It then returns the four field slices converted, in x, y, z, w order. |
| SceneProperties.TokenSpan | engine2D/sceneParser.h:20-31 | from the first index of a space-free token, the scan stops right after the token |
| SceneProperties.TokenFieldSpans | engine2D/sceneParser.cpp:17-32 | in a line of four tokens separated by single spaces, the four field spans are the tokens |
| SceneProperties.RecordLineSpans | engine2D/sceneParser.cpp:17-32 | in the record line `tag a b c d`, the four field slices are `a`, `b`, `c` and `d` |
| SceneProperties.RecordLineParses | engine2D/sceneParser.cpp:3-36 | the record line built from four tokens parses to the four tokens' conversions |
| SceneProperties.OneFieldLineThrows | engine2D/sceneParser.cpp:21-24 | `e 1` makes the second `substr` throw, at position 4 of a 3-character line |
| SceneProperties.TwoFieldLineThrows | engine2D/sceneParser.cpp:26-29 | `e 1 2` makes the third `substr` throw, at position 6 of a 5-character line |
| SceneProperties.ThreeFieldLineThrows | engine2D/sceneParser.cpp:31-34 | `e 1 2 3` makes the fourth `substr` throw, at position 8 of a 7-character line |
| SceneProperties.TrailingSpaceLineParses | engine2D/sceneParser.cpp:17-36 | `e 1 2 3 ` loads without an exception: the trailing space ends the third field, and the fourth field is the empty slice at the end of the line |
| SceneProperties.SpaceRunShiftsFields | engine2D/sceneParser.cpp:8-36 | only the spaces before the first field are skipped: `e 1   2 3 4` parses to the conversions of `1`, ` `, `2` and `3`, and the `4` is never read |
| SceneProperties.NonRecordLineChangesNothing | engine2D/sceneParser.cpp:67-70 | a line shorter than two characters, or with an unknown tag, leaves the scene unchanged |
| SceneProperties.ApplyLineFailsIff | engine2D/sceneParser.cpp:74-99 | a line throws exactly when it is a record line on which the parser throws, and with that exception |
| SceneProperties.ApplyLineAppends | engine2D/sceneParser.cpp:83-97 | an `o`, `c`, `d`, `p` or `i` line appends its parse to its own vector and changes no other field |
| SceneProperties.ApplyLineOverwrites | engine2D/sceneParser.cpp:77-82 | an `e` or `a` line replaces that value with its parse and changes no other field |
| SceneProperties.ApplyLineOtherTag | engine2D/sceneParser.cpp:74-99 | a line not tagged for a vector leaves that vector alone |
| SceneProperties.ApplyLinesCollects | engine2D/sceneParser.cpp:63-99 | after a run of lines, each vector has been extended by the parses of its tagged lines, in file order |
| SceneProperties.ApplyLinesLastWins | engine2D/sceneParser.cpp:63-82 | after a run of lines, `eye` and `ambient` hold the parse of the last line so tagged, or keep their value when there is no such line |
| SceneProperties.ApplyLinesFailsIff | engine2D/sceneParser.cpp:63-99 | a run of lines throws exactly when one of its record lines makes the parser throw |
| SceneProperties.LoadVectors | engine2D/sceneParser.cpp:63-99 | after a load, each vector is exactly the list of its tagged lines' parses, in file order |
| SceneProperties.LoadSettings | engine2D/sceneParser.cpp:77-82 | after a load, `eye` and `ambient` are the parse of the last line so tagged, or zero when there is none |
| SceneProperties.LoadSizes | engine2D/sceneParser.cpp:101 | after a load, `sizes` is (number of `o` lines, number of `d` lines, 1) |
| SceneProperties.LoadFailsIff | engine2D/sceneParser.cpp:55-101 | loading a readable file throws exactly when one of its record lines makes the parser throw |
| SceneProperties.LoadOpenFailed | engine2D/sceneParser.cpp:103-110 | a file that cannot be opened gives a scene with all vectors empty and `sizes` (0, 0, 0) |
| SceneProperties.SixRecordLinesLoad | engine2D/sceneParser.cpp:63-101 | six parsing lines tagged `e`, `a`, `o`, `c`, `p`, `i` load to the scene with those parses, no directions, and `sizes` (1, 0, 1) |
| SceneProperties.FixtureLoads | engine2D/sceneParser.cpp:55-101 | the example scene file `FIXTURE` loads to the scene of its six records' conversions |
| SceneProperties.FixtureValues | engine2D/sceneParser.cpp:55-101 | with a conversion that reads decimal literals as their values, the example scene file `FIXTURE` gives eye (0,0,5,32), ambient (0.1,0.1,0.1,0), and one object, color, light and intensity, with no directions and `sizes` (1, 0, 1) |
| SceneProperties.SingleObjectLoad | engine2D/sceneParser.cpp:83-85 | a file holding one parsing `o` line loads to one object, no colors, and `sizes` (1, 0, 1) |
| SceneProperties.ObjectsWithoutColorsLoad | engine2D/sceneParser.cpp:83-88 | nothing ties a color to each object: `o 0 0 0 1` alone loads with one object and no color |
| SceneProperties.UploadPlanLayout | engine2D/sceneParser.cpp:43-50 | the upload is eight writes to slots 0 to 7 in order. Every array write's count equals its payload's length. Slot 7 receives `sizes`. |
| SceneProperties.LastWriteAppend | engine2D/shader.cpp:125-140 | models what the GL call made there (`glUniform4fv`, `glUniform3i`) leaves in the slot: a later write to a slot hides every earlier write to the same slot |
| SceneProperties.LastWriteIs | engine2D/shader.cpp:125-140 | models what the GL call made there leaves in the slot: a slot holds the last write made to it, the one that no later write to the same slot follows |
| SceneProperties.LastWriteInPlan | engine2D/sceneParser.cpp:43-50 | within the upload, each slot's last write is the plan's write to that slot |
| SceneProperties.UploadReadsBack | engine2D/sceneParser.cpp:41-52 | whatever the shader held before, after the upload its eight slots read back exactly the scene, each field from the slot the shader binds it to |
| SceneParser.UploadAsWritten | engine2D/sceneParser.cpp:44-48 | the upload as written, with `&v[0]` for each of the five vectors: undefined (`None`) when one of them is empty, and the eight writes of the plan otherwise. `UploadAsWrittenDefinedIff` states both directions. |
| SceneProperties.UploadAsWrittenDefinedIff | engine2D/sceneParser.cpp:44-48 | the upload as written is defined exactly when none of the five vectors is empty, and it is then the plan |
| SceneProperties.FixtureUploadUndefined | engine2D/sceneParser.cpp:47 | for the example scene file `FIXTURE`, the upload as written indexes the empty `directions` vector, while the upload of whole sequences reads the scene back |

## Left out

- Floating point is not modelled. `float` is `real`, and `atof`/`atoi` are uninterpreted parameters.
  Their own behaviour (locale, invalid text read as 0) is C library code and is not part of this model.
- Integer widths: only the unsigned `end - start` and `ParseIndexValue`'s unsigned result are
  modelled modulo 2^32. Indices and lengths are unbounded naturals. The `size_t` to `int` narrowing of
  `sizes` and of the counts passed to the setters is not modelled.
- Tokenizer.ParseIndexValue: the signed overflow of `atoi(...) - 1` when `atoi` returns `INT_MIN` is
  undefined behaviour in C++; the model wraps it like the other values.
- File I/O is a `SceneFile` value: the list of lines, or the failure to open. That failure's message
  (`strerror_s`, `std::cerr`) is output only, and is left out.
- The empty line that `getline` can return at end of file is shorter than two characters. It has no
  effect, so the model simply omits it.
- `glm::vec4` and `glm::ivec3` are taken to default-construct to zeros. This depends on the glm version
  and its configuration.
- `Scene.LoadToShader` passes each vector's contents as a sequence rather than a pointer. The
  undefined `&v[0]` on an empty vector is kept apart as `UploadAsWritten` (see Findings).
- The shader's own guard on slot numbers (`indx < NUM_UNIFORMS`, `engine2D/shader.cpp:125-140`) never
  fires for slots 0 to 7, so the log records every write. Compiling, binding and drawing are left out.
  So are the window loop of `rayTracer/main.cpp` and `display/`.
- `engine2D/scene.h` declares an unused `update` interface; it is not part of this model.
- A uniform slot is modelled as holding its latest write in full (`LastWrite`, `UniformScene`). In
  OpenGL, `glUniform4fv` on an array uniform (`engine2D/shader.cpp:125-131`) sets only its first
  `count` elements: after a shorter write the later elements keep their old values, and elements past
  the shader's declared array size are ignored. Partial updates of array uniforms and the declared
  array sizes are not modelled, so `UploadReadsBack` and `LastWriteIs` speak of the log of writes, not
  of the GPU's array contents.
- Repeated loads giving the same scene needs no lemma: `Load` is a function.

## Findings

| source | as written | input that shows it | evidently intended | confidence | as-written member | corrected member |
|---|---|---|---|---|---|---|
| engine2D/sceneParser.cpp:44-48 | each vector is passed as `&v[0]`, which is undefined for an empty `std::vector` | the example scene file `FIXTURE`, which has no `d` line, so `&directions[0]` indexes an empty vector | pass the vector's data with count 0, so that nothing is uploaded for that slot | not executed; undefined by the C++ standard, and often harmless in practice | SceneParser.UploadAsWritten, SceneProperties.FixtureUploadUndefined | SceneParser.Scene.LoadToShader, SceneProperties.UploadReadsBack |
