/** The editor's application state and the updates its buttons make. */
module App {
  import opened Results
  import opened Assembler
  import opened Pipeline

  /** The fixed full-screen-quad vertex shader; it is compiled as is, without injected attributes. */
  const QuadVertexShaderText: string :=
    "attribute vec2 a_pos;\n" + "void main() {\n    gl_Position = vec4(a_pos, 0.0, 1.0);\n}\n"

  /** The application state: the editor and error-box text, the active program
      (`None` until a compile succeeds), the uniforms, and the play flag and button label. */
  datatype AppState = AppState(
    editor: string,
    errorBox: string,
    programState: Option<ProgramState>,
    uniforms: seq<Uniform>,
    playing: bool,
    playLabel: string)

  /** The play button's label for a play flag. */
  function LabelFor(playing: bool): (text: string)
    ensures text == "Pause" <==> playing
    ensures text == "Run" <==> !playing
  {
    if playing then "Pause" else "Run"
  }

  /** The vertex template's own first line is the declaration `injectAttributes` would emit
      for the quad's `a_pos` attribute, so it compiles without injected attributes. */
  lemma QuadVertexDeclaresPosition()
    ensures var line := DeclLine("attribute", Declared(GlTypes.Vec2, "a_pos"));
            |line| <= |QuadVertexShaderText| && QuadVertexShaderText[..|line|] == line
  {

  }

  /** The program a compile of the editor text builds: the quad vertex text verbatim and
      the editor text behind the precision directive and uniform declarations. */
  function CompileEditor(s: AppState, compile: Compiler, link: Linker): (ps: ProgramState)
    ensures ps.vshader == CreateShader(compile, QuadVertexShaderText, VertexShader)
    ensures ps.fshader == CreateShader(compile, ProcessFragText(s.editor, s.uniforms), FragmentShader)
    ensures ps.vshader.source == QuadVertexShaderText
    ensures ps.fshader.source == ProcessFragText(s.editor, s.uniforms)
    ensures ps.vshader.status == Ok && ps.fshader.status == Ok ==>
              ps.lprogram == CreateProgram(link, ps.vshader.shader, ps.fshader.shader)
    ensures !(ps.vshader.status == Ok && ps.fshader.status == Ok) ==> ps.lprogram == NoProgram
    ensures var v := compile(QuadVertexShaderText, VertexShader);
            var f := compile(ProcessFragText(s.editor, s.uniforms), FragmentShader);
            var l := link(v.handle, f.handle);
            ValidLinkedProgram(ps) <==>
              (v.success || v.log == "") && (f.success || f.log == "") && (l.success || l.log == "")
  {
    ValidIffOraclesClean(compile, link, QuadVertexShaderText, ProcessFragText(s.editor, s.uniforms));
    CreateLinkedProgram(compile, link, QuadVertexShaderText, ProcessFragText(s.editor, s.uniforms))
  }

  /** The compile button (domCompile): a valid program replaces the active one; an
      invalid one leaves it and writes its error into the error box. */
  function DomCompile(s: AppState, compile: Compiler, link: Linker): (r: AppState)
    ensures var ps := CompileEditor(s, compile, link);
            && (ValidLinkedProgram(ps) ==> r == s.(programState := Some(ps)))
            && (!ValidLinkedProgram(ps) ==>
                  r == s.(errorBox := LinkedProgramError(ps)) && r.errorBox != "")
  {
    var ps := CompileEditor(s, compile, link);
    CreatedErrorEmptyIffValid(compile, link, QuadVertexShaderText, ProcessFragText(s.editor, s.uniforms));
    if !ValidLinkedProgram(ps) then s.(errorBox := LinkedProgramError(ps))
    else s.(programState := Some(ps))
  }

  /** Only valid programs are ever active. */
  predicate ActiveIsValid(s: AppState)
  {
    s.programState.Some? ==> ValidLinkedProgram(s.programState.value)
  }

  lemma DomCompilePreservesActiveIsValid(s: AppState, compile: Compiler, link: Linker)
    requires ActiveIsValid(s)
    ensures ActiveIsValid(DomCompile(s, compile, link))
  {
  }

  /** A second press with a GL that gives the same verdicts (though it creates new objects)
      leaves the editor, error box and play state as they are; after a failed first press it
      changes nothing, and after a successful one it installs a program with the same
      statuses and infos. */
  lemma DomCompileTwice(s: AppState, c1: Compiler, l1: Linker, c2: Compiler, l2: Linker)
    requires SameVerdicts(c1, l1, c2, l2, QuadVertexShaderText, ProcessFragText(s.editor, s.uniforms))
    ensures var r1 := DomCompile(s, c1, l1);
            var r2 := DomCompile(r1, c2, l2);
            && r2.(programState := r1.programState) == r1
            && (!ValidLinkedProgram(CompileEditor(s, c1, l1)) ==> r2 == r1)
            && (ValidLinkedProgram(CompileEditor(s, c1, l1)) ==>
                  && r1.programState.Some? && r2.programState.Some?
                  && Entries(r2.programState.value) == Entries(r1.programState.value))
            && (ActiveIsValid(s) ==> ActiveIsValid(r2))
  {
  }

  /** The play button: flip the flag and set the label from the new flag. */
  function TogglePlay(s: AppState): (r: AppState)
    ensures r.playing == !s.playing
    ensures r.playLabel == LabelFor(r.playing)
    ensures r.(playing := s.playing, playLabel := s.playLabel) == s
  {
    var playing := !s.playing;
    s.(playing := playing, playLabel := LabelFor(playing))
  }

  /** Two presses restore the flag, and the label too once it matches the flag
      (as it does after any press). */
  lemma TogglePlayTwice(s: AppState)
    ensures TogglePlay(TogglePlay(s)).playing == s.playing
    ensures TogglePlay(TogglePlay(s)).playLabel == LabelFor(s.playing)
    ensures s.playLabel == LabelFor(s.playing) ==> TogglePlay(TogglePlay(s)) == s
  {
  }
}
