# Shader editor core, modelled in Dafny

A browser live shader editor assembles the user's fragment shader text with
uniform declarations, compiles it against a fixed full-screen-quad vertex shader,
links the two, and either makes the new program the active one or shows the first
diagnostic in an error box. This project models the pure parts of that cycle:

- `GlTypes` — the shader type tags (`float`, `ivec2`, `vec2`, and any other string
  as `Unknown`), the declaration-keyword lookup and the attribute-size lookup with its
  "unimplemented" error. Descriptors and lookups take a `Tag`: a tag whose `Unknown`
  never spells a supported type, so each JavaScript string has exactly one tag.
- `Assembler` — declaration lines (`attribute <type> <name>;` / `uniform <type> <name>;`),
  `injectAttributes` and `processFragText`, and the `forEach` loop that builds them.
- `Pipeline` — `createShader`, `createProgram`, `createLinkedProgram`,
  `validLinkedProgram` and `linkedProgramError`. The GL compiler and linker are
  oracle parameters (`Compiler`, `Linker`) returning a handle, the success flag and
  the info log.
- `App` — the compile button's state update (`domCompile`) and the play button.
  The editor text, error box, active program and play label are plain fields of `AppState`.
- `Results` — `Option` (for `null`) and `Result` (for thrown errors).

Notes on the code as written:
- Status is derived from the info string, not from the success flag. So a failed
  compile or link with an empty log is reported as `Ok` (`Pipeline.EmptyLogFailureReadsOk`
  for a compile, `Pipeline.EmptyLogLinkFailureReadsOk` for a link).
- `domCompile` compiles the quad vertex text as it is: `injectAttributes` is not on the
  compile path, and `App.QuadVertexShaderText` is passed through unchanged.
- The precision prefix of `processFragText` is `"precision highp float;\n\n    "`:
  the template literal holds a line break and four spaces of indentation.

## Model

| member | source | states |
|---|---|---|
| GlTypes.Parse | src/shadertoy.js:6-10 | a string reads as `Unknown` exactly when it is not one of the three supported spellings, and the tag's name is the string again |
| GlTypes.ParseName | src/shadertoy.js:6-10 | for canonical tags, reading a tag's JavaScript spelling gives the tag back |
| GlTypes.ShaderDecl | src/shadertoy.js:12-14 | the declaration keyword is total and denotes the same tag as the tag's name |
| GlTypes.ShaderDeclIsIdentity | src/shadertoy.js:12-14 | on the JavaScript program's string tags, glTypesToShaderDecl returns its argument unchanged |
| GlTypes.AttribSizeError | src/shadertoy.js:55 | the thrown message ends with the offending tag's name, after the "unimplemented glType glTypesToAttribSize:" line |
| GlTypes.AttribSize | src/shadertoy.js:46-57 | succeeds exactly on supported tags; 1 exactly for float, else 2; any other tag fails with the "unimplemented glType glTypesToAttribSize" message naming the tag |
| GlTypes.AttribSizeOfName | src/shadertoy.js:46-57 | at the string level the size lookup succeeds iff the tag is float, ivec2 or vec2, and otherwise the error names the tag string |
| Assembler.DeclLineShape | src/shadertoy.js:100 | a declaration line is the keyword, a space, the tag's spelling, a space, the descriptor name, then ";" and a newline, nothing else |
| Assembler.DeclBlock | src/shadertoy.js:99-101 | the declarations are empty exactly when the descriptor list is |
| Assembler.DeclBlockAppend | src/shadertoy.js:99-101 | the declarations of a concatenated list are the declarations of the first part followed by those of the second |
| Assembler.DeclBlockSnoc | src/shadertoy.js:99-101 | one more descriptor appends exactly its one declaration line |
| Assembler.DeclBlockLine | src/shadertoy.js:99-101 | descriptor i's line sits right after the lines of descriptors 0..i-1, which form a prefix of the block |
| Assembler.AppendDeclarations | src/shadertoy.js:108-110 | the forEach loop appends to the start text exactly one declaration line per descriptor, in list order |
| Assembler.InjectAttributes | src/shadertoy.js:97-104 | the vertex source ends with the vertex text verbatim after the attribute lines, and an empty list yields exactly the vertex text |
| Assembler.ProcessFragText | src/shadertoy.js:105-113 | the fragment source starts with the precision prefix `PrecisionPrefix`, "precision highp float;", a newline, a blank line and four spaces (lines 106-107), ends with the user text verbatim, and with no uniforms is just prefix plus text |
| Assembler.InjectAttributesByLoop | src/shadertoy.js:97-104 | the loop-and-append construction of `injectAttributes` produces the vertex source above |
| Assembler.ProcessFragTextByLoop | src/shadertoy.js:105-113 | the loop-and-append construction of `processFragText`, starting from the precision prefix, produces the fragment source above |
| Assembler.InjectAttributesLine | src/shadertoy.js:97-104 | attribute i's line `attribute <type> <name>;` appears in the vertex source right after the lines of attributes 0..i-1 |
| Assembler.ProcessFragTextLine | src/shadertoy.js:105-113 | uniform i's line `uniform <type> <name>;` appears right after the precision prefix and the lines of uniforms 0..i-1 |
| Pipeline.StatusOf | src/shadertoy.js:142 | the status is Issue exactly when the info string is non-empty |
| Pipeline.InfoOf | src/shadertoy.js:155-158 | the info is empty exactly when the GL reported success or an empty log, and otherwise is the log |
| Pipeline.CreateShader | src/shadertoy.js:150-166 | status Issue iff info non-empty; Ok iff the compile succeeded or left an empty log; an Issue carries the compiler log; the shader handle and source are kept |
| Pipeline.CreateProgram | src/shadertoy.js:132-148 | status Issue iff info non-empty; Ok iff the link succeeded or left an empty log; an Issue carries the linker log; the program handle is kept |
| Pipeline.CreateLinkedProgram | src/shadertoy.js:168-189 | both stages are compiled; the linker result is used when both are Ok, and otherwise the link result is exactly `NoProgram`, that is Issue / "no program" / null (lines 182-186) |
| Pipeline.ValidLinkedProgram | src/shadertoy.js:191-194 | a program is valid exactly when every one of its vertex, fragment and link results has status Ok |
| Pipeline.LinkedProgramError | src/shadertoy.js:196-203 | a valid program has the empty error string |
| Pipeline.LinkedProgramErrorIsFirstIssue | src/shadertoy.js:196-203 | the error is the info of the first non-Ok result in the order vertex, fragment, link, or "" when all are Ok |
| Pipeline.CreatedIsWellFormed | src/shadertoy.js:142-189 | every result createLinkedProgram builds has status Issue exactly when its info is non-empty, the synthetic link result included |
| Pipeline.ErrorEmptyIffValid | src/shadertoy.js:191-203 | for well-formed states the error string is empty iff vertex, fragment and link are all Ok |
| Pipeline.CreatedErrorEmptyIffValid | src/shadertoy.js:168-203 | for states built by createLinkedProgram the error string is empty iff the program is valid |
| Pipeline.LinkerNotCalledOnStageIssue | src/shadertoy.js:171-188 | when either stage is not Ok the result does not depend on the linker, so the linker is not consulted |
| Pipeline.ValidIffOraclesClean | src/shadertoy.js:168-194 | the program is valid iff both compiles and the link each succeeded or left an empty log |
| Pipeline.EmptyLogFailureReadsOk | src/shadertoy.js:155-159 | a failed compile whose log is empty is reported as Ok with empty info |
| Pipeline.EmptyLogLinkFailureReadsOk | src/shadertoy.js:138-142 | a failed link whose log is empty is reported as Ok with empty info |
| Pipeline.SameVerdictsSameEntries | src/shadertoy.js:132-189 | statuses, infos, validity and the error text depend only on what the GL reports (success flags and logs), not on the object handles it creates |
| Pipeline.FragmentFailureReported | src/shadertoy.js:168-203 | a good vertex and a failing fragment with a log give Ok, Issue, the synthetic "no program" link, an invalid program, and the fragment log as the error |
| App.QuadVertexDeclaresPosition | src/shadertoy.js:72-77 | the fixed vertex text opens with exactly the `attribute vec2 a_pos;` line that injectAttributes would emit for the quad attribute |
| App.CompileEditor | src/shadertoy.js:210-213 | the vertex stage is the compile of the quad vertex text verbatim and the fragment stage the compile of the processed editor text, the link result is the linker's when both stages are Ok and `NoProgram` otherwise, and the program is valid exactly when both compiles and the link succeeded or left an empty log |
| App.DomCompile | src/shadertoy.js:205-220 | a valid program replaces the active one and nothing else changes; an invalid one leaves everything but the error box, which gets the non-empty error text |
| App.DomCompilePreservesActiveIsValid | src/shadertoy.js:214-219 | if the active program was valid (or absent) it still is after a compile |
| App.DomCompileTwice | src/shadertoy.js:205-220 | a second press with a GL that reports the same verdicts changes nothing after a failed first press, and after a successful one installs a program with the same statuses and infos, keeping editor, error box and play state |
| App.LabelFor | src/shadertoy.js:228 | the label is "Pause" exactly when playing and "Run" exactly when paused |
| App.TogglePlay | src/shadertoy.js:226-229 | the play flag flips, the label becomes "Pause" when playing and "Run" otherwise, and nothing else changes |
| App.TogglePlayTwice | src/shadertoy.js:227-228 | two presses restore the flag and leave the label matching it, so a state whose label matched its flag is restored exactly |

## Left out

- All WebGL calls (`getWebglHandle`, `getWebglErrors`, `setAttributes`, `setUniforms`,
  `glUniformSetter`, `glTypesToUniformSetter`, `glTypesToAttribType`, `draw`): foreign calls on
  opaque handles. The compiler and linker appear only as the `Compiler` / `Linker` oracles.
- The `looper` frame loop and `requestAnimationFrame`: a host-scheduled unbounded loop whose
  only logic is `if playing`.
- The `iTime` clock (`performance.now() / 1000`) and the uniforms' value providers: clock reads
  and floating point.
- DOM wiring, `sessionStorage` save and restore, and `init`: I/O. The empty uniform object in
  `init`'s data (which would declare `uniform undefined undefined;`) belongs to that data.
- `setTextures` and the restart button's handler: both are empty.
- The buffer handle of an attribute descriptor: an opaque GL object.
- The GL oracles are functions, so the same input gives the same object handle; the real
  `gl.createShader` and `gl.createProgram` make a fresh object on every call. Handle identity
  across compiles is therefore not modelled, and `App.DomCompileTwice` compares results only
  up to their handles.
- A `null` info log from the GL (possible after a lost context): the oracle's log is a string.
