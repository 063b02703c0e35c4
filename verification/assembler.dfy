/** The shader text assembler: declaration lines prepended to shader source. */
module Assembler {
  import opened GlTypes

  /** A uniform descriptor; its per-frame value provider is not modelled. */
  datatype Uniform = Uniform(name: string, glType: Tag)

  /** An attribute descriptor; its buffer handle is not modelled. The layout fields
      `normalized`, `stride` and `offset` are read only by `setAttributes`, which is not
      part of this model; they are kept so that the descriptor has its full shape. */
  datatype Attribute = Attribute(name: string, glType: Tag, normalized: bool, stride: nat, offset: nat)

  /** What a declaration line needs of a descriptor: its tag and its name. */
  datatype Declared = Declared(glType: Tag, name: string)

  /** The precision directive that opens every assembled fragment source. */
  const PrecisionPrefix: string := "precision highp float;\n\n    "

  function UniformDecl(u: Uniform): Declared
  {
    Declared(u.glType, u.name)
  }

  function AttributeDecl(a: Attribute): Declared
  {
    Declared(a.glType, a.name)
  }

  /** The tag and name of every descriptor of a list, in list order. */
  function Decls<T>(xs: seq<T>, decl: T -> Declared): seq<Declared>
  {
    seq(|xs|, i requires 0 <= i < |xs| => decl(xs[i]))
  }

  /** One declaration line, `<keyword> <type> <name>;` and a newline. */
  function DeclLine(keyword: string, d: Declared): string
  {
    keyword + " " + ShaderDecl(d.glType) + " " + d.name + ";\n"
  }

  /** A declaration line is the keyword, the tag's spelling and the name, space-separated,
      then `;` and a newline, and nothing else. */
  lemma DeclLineShape(keyword: string, d: Declared)
    ensures var line := DeclLine(keyword, d);
            var head := keyword + " " + Name(d.glType) + " ";
            && |line| == |head| + |d.name| + 2
            && line[..|head|] == head
            && line[|head|..|head| + |d.name|] == d.name
            && line[|head| + |d.name|..] == ";\n"
  {
  }

  /** The declaration lines of a descriptor list, one per descriptor, in list order. */
  function DeclBlock(keyword: string, ds: seq<Declared>): (block: string)
    ensures block == "" <==> |ds| == 0
  {
    if |ds| == 0 then "" else DeclLine(keyword, ds[0]) + DeclBlock(keyword, ds[1..])
  }

  /** The block of a concatenation is the concatenation of the blocks. */
  lemma {:induction false} DeclBlockAppend(keyword: string, a: seq<Declared>, b: seq<Declared>)
    ensures DeclBlock(keyword, a + b) == DeclBlock(keyword, a) + DeclBlock(keyword, b)
  {
    if |a| == 0 {
      assert a + b == b;
    } else {
      assert (a + b)[1..] == a[1..] + b;
      DeclBlockAppend(keyword, a[1..], b);
    }
  }

  /** Appending one descriptor appends exactly its line. */
  lemma DeclBlockSnoc(keyword: string, ds: seq<Declared>, d: Declared)
    ensures DeclBlock(keyword, ds + [d]) == DeclBlock(keyword, ds) + DeclLine(keyword, d)
  {
    DeclBlockAppend(keyword, ds, [d]);
  }

  /** Layout of a block: the line of descriptor `i` sits right after the lines of
      the descriptors before it, and the lines before it form a prefix. */
  lemma DeclBlockLine(keyword: string, ds: seq<Declared>, i: nat)
    requires i < |ds|
    ensures var start := |DeclBlock(keyword, ds[..i])|;
            var end := |DeclBlock(keyword, ds[..i+1])|;
            && start <= end <= |DeclBlock(keyword, ds)|
            && DeclBlock(keyword, ds)[..start] == DeclBlock(keyword, ds[..i])
            && DeclBlock(keyword, ds)[start..end] == DeclLine(keyword, ds[i])
  {
    assert ds[..i+1] == ds[..i] + [ds[i]];
    assert ds == ds[..i+1] + ds[i+1..];
    DeclBlockSnoc(keyword, ds[..i], ds[i]);
    DeclBlockAppend(keyword, ds[..i+1], ds[i+1..]);
  }

  /** The `forEach` loop of `injectAttributes` and `processFragText`: append one line per descriptor to `src`. */
  method AppendDeclarations(src: string, keyword: string, ds: seq<Declared>) returns (out: string)
    ensures out == src + DeclBlock(keyword, ds)
  {
    out := src;
    var i := 0;
    while i < |ds|
      invariant 0 <= i <= |ds|
      invariant out == src + DeclBlock(keyword, ds[..i])
    {
      DeclBlockSnoc(keyword, ds[..i], ds[i]);
      assert ds[..i+1] == ds[..i] + [ds[i]];
      out := out + DeclLine(keyword, ds[i]);
      i := i + 1;
    }
    assert ds[..i] == ds;
  }

  /** The vertex source: attribute declarations, then the vertex text verbatim (injectAttributes). */
  function InjectAttributes(vertText: string, attrs: seq<Attribute>): (src: string)
    ensures |src| == |DeclBlock("attribute", Decls(attrs, AttributeDecl))| + |vertText|
    ensures src[|src| - |vertText|..] == vertText
    ensures |attrs| == 0 ==> src == vertText
  {
    DeclBlock("attribute", Decls(attrs, AttributeDecl)) + vertText
  }

  /** The fragment source: the precision directive, uniform declarations, then the
      user's text verbatim (processFragText). */
  function ProcessFragText(fragText: string, us: seq<Uniform>): (src: string)
    ensures |src| == |PrecisionPrefix| + |DeclBlock("uniform", Decls(us, UniformDecl))| + |fragText|
    ensures src[..|PrecisionPrefix|] == PrecisionPrefix
    ensures src[|src| - |fragText|..] == fragText
    ensures |us| == 0 ==> src == PrecisionPrefix + fragText
  {
    PrecisionPrefix + DeclBlock("uniform", Decls(us, UniformDecl)) + fragText
  }

  /** The append loop of `injectAttributes` builds exactly `InjectAttributes`. */
  method InjectAttributesByLoop(vertText: string, attrs: seq<Attribute>) returns (src: string)
    ensures src == InjectAttributes(vertText, attrs)
  {
    src := AppendDeclarations("", "attribute", Decls(attrs, AttributeDecl));
    src := src + vertText;
  }

  /** The append loop of `processFragText` builds exactly `ProcessFragText`. */
  method ProcessFragTextByLoop(fragText: string, us: seq<Uniform>) returns (src: string)
    ensures src == ProcessFragText(fragText, us)
  {
    src := AppendDeclarations(PrecisionPrefix, "uniform", Decls(us, UniformDecl));
    src := src + fragText;
  }

  /** A slice inside the middle part of a three-part concatenation. */
  lemma SliceOfMiddle(a: string, b: string, c: string, lo: nat, hi: nat)
    requires lo <= hi <= |b|
    ensures (a + b + c)[|a| + lo..|a| + hi] == b[lo..hi]
  {
  }

  /** Descriptor `i`'s line inside a block framed by a prefix and a trailing text. */
  lemma FramedBlockLine(prefix: string, keyword: string, ds: seq<Declared>, text: string, i: nat)
    requires i < |ds|
    ensures var src := prefix + DeclBlock(keyword, ds) + text;
            var start := |prefix| + |DeclBlock(keyword, ds[..i])|;
            var line := DeclLine(keyword, ds[i]);
            && start + |line| <= |src|
            && src[start..start + |line|] == line
  {
    DeclBlockLine(keyword, ds, i);
    assert ds[..i+1] == ds[..i] + [ds[i]];
    DeclBlockSnoc(keyword, ds[..i], ds[i]);
    var start := |DeclBlock(keyword, ds[..i])|;
    SliceOfMiddle(prefix, DeclBlock(keyword, ds), text, start, start + |DeclLine(keyword, ds[i])|);
  }

  /** Attribute `i`'s line, `attribute <type> <name>;`, follows those of attributes `0..i-1`. */
  lemma InjectAttributesLine(vertText: string, attrs: seq<Attribute>, i: nat)
    requires i < |attrs|
    ensures var src := InjectAttributes(vertText, attrs);
            var start := |DeclBlock("attribute", Decls(attrs[..i], AttributeDecl))|;
            var line := "attribute " + Name(attrs[i].glType) + " " + attrs[i].name + ";\n";
            && start + |line| <= |src|
            && src[start..start + |line|] == line
  {
    var ds := Decls(attrs, AttributeDecl);
    var d := Declared(attrs[i].glType, attrs[i].name);
    assert ds[i] == d;
    assert ds[..i] == Decls(attrs[..i], AttributeDecl);
    assert DeclLine("attribute", d) == "attribute " + Name(attrs[i].glType) + " " + attrs[i].name + ";\n";
    FramedBlockLine("", "attribute", ds, vertText, i);
  }

  /** Uniform `i`'s line, `uniform <type> <name>;`, follows the precision directive and
      the lines of uniforms `0..i-1`. */
  lemma ProcessFragTextLine(fragText: string, us: seq<Uniform>, i: nat)
    requires i < |us|
    ensures var src := ProcessFragText(fragText, us);
            var start := |PrecisionPrefix| + |DeclBlock("uniform", Decls(us[..i], UniformDecl))|;
            var line := "uniform " + Name(us[i].glType) + " " + us[i].name + ";\n";
            && start + |line| <= |src|
            && src[start..start + |line|] == line
  {
    var ds := Decls(us, UniformDecl);
    var d := Declared(us[i].glType, us[i].name);
    assert ds[i] == d;
    assert ds[..i] == Decls(us[..i], UniformDecl);
    assert DeclLine("uniform", d) == "uniform " + Name(us[i].glType) + " " + us[i].name + ";\n";
    FramedBlockLine(PrecisionPrefix, "uniform", ds, fragText, i);
  }
}
