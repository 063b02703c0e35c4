/** The type registry: the shader type tags of the editor and the lookups keyed by them. */
module GlTypes {
  import opened Results

  /** A shader type tag. The JavaScript program carries tags as strings; the three
      supported spellings get their own constructor, and `Unknown` carries any other string. */
  datatype GlType = Float | IVec2 | Vec2 | Unknown(tag: string)

  /** The supported tags, by their `glTypes` spelling. */
  const SupportedNames: set<string> := {"float", "ivec2", "vec2"}

  /** A tag is canonical when an `Unknown` does not spell a supported type;
      these are exactly the tags `Parse` produces. */
  predicate Canonical(t: GlType)
  {
    t.Unknown? ==> t.tag !in SupportedNames
  }

  /** The tags a JavaScript string can stand for: one per string. */
  type Tag = t: GlType | Canonical(t) witness Float

  /** The string the JavaScript program uses for a tag. */
  function Name(t: GlType): string
  {
    match t
    case Float => "float"
    case IVec2 => "ivec2"
    case Vec2 => "vec2"
    case Unknown(s) => s
  }

  /** Reads a JavaScript tag string as a tag. */
  function Parse(s: string): (t: Tag)
    ensures t.Unknown? <==> s !in SupportedNames
    ensures Name(t) == s
  {
    if s == "float" then Float
    else if s == "ivec2" then IVec2
    else if s == "vec2" then Vec2
    else Unknown(s)
  }

  lemma ParseName(t: Tag)
    ensures Parse(Name(t)) == t
  {
  }

  /** The declaration keyword for a tag (glTypesToShaderDecl): total, never an error. */
  function ShaderDecl(t: Tag): (decl: string)
    ensures decl == Name(t)
  {
    Name(t)
  }

  /** On strings, as `glTypesToShaderDecl` sees its argument, the keyword is the tag itself. */
  lemma ShaderDeclIsIdentity(s: string)
    ensures ShaderDecl(Parse(s)) == s
  {
  }

  /** The message of the error `glTypesToAttribSize` throws for an unsupported tag. */
  function AttribSizeError(t: Tag): (msg: string)
    ensures |msg| >= |Name(t)|
    ensures msg[..|msg| - |Name(t)|] == "unimplemented glType glTypesToAttribSize:\n"
    ensures msg[|msg| - |Name(t)|..] == Name(t)
  {
    "unimplemented glType glTypesToAttribSize:\n" + Name(t)
  }

  /** Component count of a vertex attribute of a given tag (glTypesToAttribSize). */
  function AttribSize(t: Tag): (r: Result<nat>)
    ensures r.Success? <==> !t.Unknown?
    ensures r.Success? ==> (r.value == 1 <==> t == Float)
    ensures r.Success? ==> 1 <= r.value <= 2
    ensures r.Failure? ==> r.error == AttribSizeError(t)
  {
    match t
    case Float => Success(1)
    case IVec2 => Success(2)
    case Vec2 => Success(2)
    case Unknown(_) => Failure(AttribSizeError(t))
  }

  /** At the string level, the size lookup succeeds exactly on the supported spellings. */
  lemma AttribSizeOfName(s: string)
    ensures AttribSize(Parse(s)).Success? <==> s in SupportedNames
    ensures AttribSize(Parse(s)).Failure? ==>
              AttribSize(Parse(s)).error == "unimplemented glType glTypesToAttribSize:\n" + s
  {
  }
}
