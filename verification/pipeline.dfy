/** The compile/link pipeline over an abstract GL compiler and linker. */
module Pipeline {
  import opened Results

  datatype Status = Ok | Issue

  datatype StageKind = VertexShader | FragmentShader

  /** What the GL reports after compiling a shader or linking a program: the new
      object, the COMPILE_STATUS / LINK_STATUS flag, and the info log. */
  datatype GlReport = GlReport(handle: nat, success: bool, log: string)

  /** The GL shader compiler, abstracted as an oracle. */
  type Compiler = (string, StageKind) -> GlReport

  /** The GL program linker, abstracted as an oracle over two shader objects. */
  type Linker = (nat, nat) -> GlReport

  /** The result of compiling one stage (createShader). */
  datatype ShaderResult = ShaderResult(status: Status, info: string, shader: nat, source: string)

  /** The result of linking, or the synthetic one when linking was skipped;
      `program` is `None` for the `null` of `createLinkedProgram`. */
  datatype LinkResult = LinkResult(status: Status, info: string, program: Option<nat>)

  /** Both stages and the link result of one compile attempt. */
  datatype ProgramState = ProgramState(vshader: ShaderResult, fshader: ShaderResult, lprogram: LinkResult)

  /** The status `createShader` and `createProgram` derive from an info string: `Issue` when it is non-empty. */
  function StatusOf(info: string): (st: Status)
    ensures st == Issue <==> info != ""
  {
    if info != "" then Issue else Ok
  }

  /** The log is read only when the GL reports failure. */
  function InfoOf(report: GlReport): (info: string)
    ensures info == "" <==> report.success || report.log == ""
    ensures info != "" ==> info == report.log
  {
    if report.success then "" else report.log
  }

  /** Compile one stage (createShader). */
  function CreateShader(compile: Compiler, source: string, kind: StageKind): (r: ShaderResult)
    ensures r.status == Issue <==> r.info != ""
    ensures r.status == Ok <==> compile(source, kind).success || compile(source, kind).log == ""
    ensures r.status == Issue ==> r.info == compile(source, kind).log
    ensures r.shader == compile(source, kind).handle
    ensures r.source == source
  {
    var report := compile(source, kind);
    var info := InfoOf(report);
    ShaderResult(StatusOf(info), info, report.handle, source)
  }

  /** Link two shader objects (createProgram). */
  function CreateProgram(link: Linker, vshader: nat, fshader: nat): (r: LinkResult)
    ensures r.status == Issue <==> r.info != ""
    ensures r.status == Ok <==> link(vshader, fshader).success || link(vshader, fshader).log == ""
    ensures r.status == Issue ==> r.info == link(vshader, fshader).log
    ensures r.program == Some(link(vshader, fshader).handle)
  {
    var report := link(vshader, fshader);
    var info := InfoOf(report);
    LinkResult(StatusOf(info), info, Some(report.handle))
  }

  /** The link result built when a stage failed and linking is skipped. */
  const NoProgram: LinkResult := LinkResult(Issue, "no program", None)

  /** Compile both stages and link them only when both are `Ok` (createLinkedProgram). */
  function CreateLinkedProgram(compile: Compiler, link: Linker, vText: string, fText: string): (r: ProgramState)
    ensures r.vshader == CreateShader(compile, vText, VertexShader)
    ensures r.fshader == CreateShader(compile, fText, FragmentShader)
    ensures r.vshader.status == Ok && r.fshader.status == Ok ==>
              r.lprogram == CreateProgram(link, r.vshader.shader, r.fshader.shader)
    ensures !(r.vshader.status == Ok && r.fshader.status == Ok) ==> r.lprogram == NoProgram
  {
    var vshader := CreateShader(compile, vText, VertexShader);
    var fshader := CreateShader(compile, fText, FragmentShader);
    if vshader.status == Ok && fshader.status == Ok then
      ProgramState(vshader, fshader, CreateProgram(link, vshader.shader, fshader.shader))
    else
      ProgramState(vshader, fshader, NoProgram)
  }

  /** A program is usable when all three results are `Ok` (validLinkedProgram). */
  function ValidLinkedProgram(ps: ProgramState): (valid: bool)
    ensures valid <==> forall e :: e in Entries(ps) ==> e.0 == Ok
  {
    assert Entries(ps)[0] in Entries(ps) && Entries(ps)[1] in Entries(ps) && Entries(ps)[2] in Entries(ps);
    ps.vshader.status == Ok && ps.fshader.status == Ok && ps.lprogram.status == Ok
  }

  /** The first non-`Ok` info, vertex before fragment before link, or "" (linkedProgramError). */
  function LinkedProgramError(ps: ProgramState): (err: string)
    ensures ValidLinkedProgram(ps) ==> err == ""
  {
    if ps.vshader.status != Ok then ps.vshader.info
    else if ps.fshader.status != Ok then ps.fshader.info
    else if ps.lprogram.status != Ok then ps.lprogram.info
    else ""
  }

  /** Reference definition of the priority: the info of the first entry whose status is not `Ok`. */
  function FirstIssue(entries: seq<(Status, string)>): string
  {
    if |entries| == 0 then ""
    else if entries[0].0 != Ok then entries[0].1
    else FirstIssue(entries[1..])
  }

  /** The status and info of each result, in the priority order of `linkedProgramError`. */
  function Entries(ps: ProgramState): seq<(Status, string)>
  {
    [(ps.vshader.status, ps.vshader.info), (ps.fshader.status, ps.fshader.info),
     (ps.lprogram.status, ps.lprogram.info)]
  }

  lemma LinkedProgramErrorIsFirstIssue(ps: ProgramState)
    ensures LinkedProgramError(ps) == FirstIssue(Entries(ps))
  {
    var e := Entries(ps);
    assert e[1..] == [e[1], e[2]];
    assert e[1..][1..] == [e[2]];
    assert e[1..][1..][1..] == [];
    assert FirstIssue(e[1..][1..]) == if e[2].0 != Ok then e[2].1 else "";
    assert FirstIssue(e[1..]) == if e[1].0 != Ok then e[1].1 else FirstIssue(e[1..][1..]);
  }

  /** Every result has status `Issue` exactly when its info is non-empty. */
  predicate WellFormed(ps: ProgramState)
  {
    && (ps.vshader.status == Issue <==> ps.vshader.info != "")
    && (ps.fshader.status == Issue <==> ps.fshader.info != "")
    && (ps.lprogram.status == Issue <==> ps.lprogram.info != "")
  }

  lemma CreatedIsWellFormed(compile: Compiler, link: Linker, vText: string, fText: string)
    ensures WellFormed(CreateLinkedProgram(compile, link, vText, fText))
  {
  }

  /** For well-formed states the error text is empty exactly when the program is valid. */
  lemma ErrorEmptyIffValid(ps: ProgramState)
    requires WellFormed(ps)
    ensures LinkedProgramError(ps) == "" <==> ValidLinkedProgram(ps)
  {
  }

  /** Hence for any state built by createLinkedProgram. */
  lemma CreatedErrorEmptyIffValid(compile: Compiler, link: Linker, vText: string, fText: string)
    ensures var ps := CreateLinkedProgram(compile, link, vText, fText);
            LinkedProgramError(ps) == "" <==> ValidLinkedProgram(ps)
  {
    CreatedIsWellFormed(compile, link, vText, fText);
    ErrorEmptyIffValid(CreateLinkedProgram(compile, link, vText, fText));
  }

  /** When a stage fails the linker is not consulted: the result is the same whatever it does. */
  lemma LinkerNotCalledOnStageIssue(compile: Compiler, link1: Linker, link2: Linker, vText: string, fText: string)
    requires CreateShader(compile, vText, VertexShader).status != Ok
          || CreateShader(compile, fText, FragmentShader).status != Ok
    ensures CreateLinkedProgram(compile, link1, vText, fText) == CreateLinkedProgram(compile, link2, vText, fText)
  {
  }

  /** Validity in terms of the oracles: every step succeeded or left an empty log. */
  lemma ValidIffOraclesClean(compile: Compiler, link: Linker, vText: string, fText: string)
    ensures var v := compile(vText, VertexShader);
            var f := compile(fText, FragmentShader);
            var l := link(v.handle, f.handle);
            ValidLinkedProgram(CreateLinkedProgram(compile, link, vText, fText)) <==>
              (v.success || v.log == "") && (f.success || f.log == "") && (l.success || l.log == "")
  {
  }

  /** A failed compile with an empty log is reported as `Ok`. */
  lemma EmptyLogFailureReadsOk(compile: Compiler, source: string, kind: StageKind)
    requires !compile(source, kind).success && compile(source, kind).log == ""
    ensures CreateShader(compile, source, kind).status == Ok
    ensures CreateShader(compile, source, kind).info == ""
  {
  }

  /** A failed link with an empty log is reported as `Ok`. */
  lemma EmptyLogLinkFailureReadsOk(link: Linker, vshader: nat, fshader: nat)
    requires !link(vshader, fshader).success && link(vshader, fshader).log == ""
    ensures CreateProgram(link, vshader, fshader).status == Ok
    ensures CreateProgram(link, vshader, fshader).info == ""
  {
  }

  /** Two reports agree on what the GL said, whatever objects they name. */
  predicate SameVerdict(a: GlReport, b: GlReport)
  {
    a.success == b.success && a.log == b.log
  }

  /** Two GLs give the same verdicts on compiling `vText` and `fText` and on linking
      the shader objects each of them created; the objects themselves may differ. */
  predicate SameVerdicts(c1: Compiler, l1: Linker, c2: Compiler, l2: Linker, vText: string, fText: string)
  {
    var v1 := c1(vText, VertexShader);
    var v2 := c2(vText, VertexShader);
    var f1 := c1(fText, FragmentShader);
    var f2 := c2(fText, FragmentShader);
    && SameVerdict(v1, v2)
    && SameVerdict(f1, f2)
    && SameVerdict(l1(v1.handle, f1.handle), l2(v2.handle, f2.handle))
  }

  /** Statuses and infos depend only on the verdicts, never on the object handles. */
  lemma SameVerdictsSameEntries(c1: Compiler, l1: Linker, c2: Compiler, l2: Linker, vText: string, fText: string)
    requires SameVerdicts(c1, l1, c2, l2, vText, fText)
    ensures var ps1 := CreateLinkedProgram(c1, l1, vText, fText);
            var ps2 := CreateLinkedProgram(c2, l2, vText, fText);
            && Entries(ps1) == Entries(ps2)
            && (ValidLinkedProgram(ps1) <==> ValidLinkedProgram(ps2))
            && LinkedProgramError(ps1) == LinkedProgramError(ps2)
  {
  }

  /** A broken fragment stage: vertex `Ok`, fragment `Issue`, the synthetic link result,
      and the reported error is the fragment's log, not "no program". */
  lemma FragmentFailureReported(compile: Compiler, link: Linker, vText: string, fText: string)
    requires compile(vText, VertexShader).success
    requires !compile(fText, FragmentShader).success && compile(fText, FragmentShader).log != ""
    ensures var ps := CreateLinkedProgram(compile, link, vText, fText);
            && ps.vshader.status == Ok
            && ps.fshader.status == Issue
            && ps.lprogram == NoProgram
            && !ValidLinkedProgram(ps)
            && LinkedProgramError(ps) == compile(fText, FragmentShader).log
  {
  }
}
