/** The struct builder and its renderer: a header chosen by the typedef
    kind, one indented line per member in insertion order, and a footer
    without a trailing newline. */
module Structs {
  import opened Base
  import opened Lib

  /** One member line: four spaces, the member declarator with its `;`, a newline. */
  function MemberLine(m: CTypeDecl): string {
    "    " + m.Render() + "\n"
  }

  /** The member lines of a struct body, in order. */
  function MemberLines(ms: seq<CTypeDecl>): string {
    ConcatMap(MemberLine, ms)
  }

  /** The complete text of a struct definition. */
  function StructText(name: string, td: Option<CTypedefKind>, ms: seq<CTypeDecl>): string {
    TypedefHeader("struct", name, td) + MemberLines(ms) + TypedefFooter(name, td)
  }

  class CStruct {
    var name: string
    var typedef: Option<CTypedefKind>
    var members: seq<CTypeDecl>

    constructor (name: string)
      ensures this.name == name && typedef == None && members == []
    {
      this.name := name;
      typedef := None;
      members := [];
    }

    method AsTypedef(td: CTypedefKind)
      modifies this
      ensures typedef == Some(td)
      ensures name == old(name) && members == old(members)
    {
      typedef := Some(td);
    }

    /** Appends the plain declarator `ty memberName`. */
    method Member(ty: string, memberName: string)
      modifies this
      ensures members == old(members) + [CTypeDecl.New(ty, memberName)]
      ensures name == old(name) && typedef == old(typedef)
    {
      members := members + [CTypeDecl.New(ty, memberName)];
    }

    method AddMember(m: CTypeDecl)
      modifies this
      ensures members == old(members) + [m]
      ensures name == old(name) && typedef == old(typedef)
    {
      members := members + [m];
    }

    /** Writes the header, then one line per member, then the footer. */
    method Render() returns (out: string)
      ensures out == StructText(name, typedef, members)
    {
      out := TypedefHeader("struct", name, typedef);
      for i := 0 to |members|
        invariant out == TypedefHeader("struct", name, typedef) + MemberLines(members[..i])
      {
        assert members[..i + 1] == members[..i] + [members[i]];
        ConcatMapAppend(MemberLine, members[..i], [members[i]]);
        ConcatMapSingle(MemberLine, members[i]);
        AppendAssoc(TypedefHeader("struct", name, typedef), MemberLines(members[..i]), MemberLine(members[i]));
        out := out + MemberLine(members[i]);
      }
      assert members[..|members|] == members;
      out := out + TypedefFooter(name, typedef);
    }
  }

  /** Member lines of a concatenation are the concatenation of member lines:
      the body keeps insertion order. */
  lemma MemberLinesConcat(a: seq<CTypeDecl>, b: seq<CTypeDecl>)
    ensures MemberLines(a + b) == MemberLines(a) + MemberLines(b)
  {
    ConcatMapAppend(MemberLine, a, b);
  }

  /** The k-th member owns the k-th line of the body: the body is the lines
      before it, its own line, and the lines after it. */
  lemma MemberLineAt(ms: seq<CTypeDecl>, k: nat)
    requires k < |ms|
    ensures MemberLines(ms) == MemberLines(ms[..k]) + MemberLine(ms[k]) + MemberLines(ms[k + 1..])
  {
    assert ms == ms[..k] + [ms[k]] + ms[k + 1..];
    ConcatMapAppend(MemberLine, ms[..k] + [ms[k]], ms[k + 1..]);
    ConcatMapAppend(MemberLine, ms[..k], [ms[k]]);
    ConcatMapSingle(MemberLine, ms[k]);
  }

  /** Adding a member inserts exactly its line just before the footer. */
  lemma AddMemberText(name: string, td: Option<CTypedefKind>, ms: seq<CTypeDecl>, m: CTypeDecl)
    ensures StructText(name, td, ms + [m])
         == TypedefHeader("struct", name, td) + MemberLines(ms) + MemberLine(m) + TypedefFooter(name, td)
  {
    MemberLinesConcat(ms, [m]);
    ConcatMapSingle(MemberLine, m);
  }

  /** Header and footer by typedef kind: `typedef struct {` / `} name;` when
      unnamed, `typedef struct name {` / `} name;` when named,
      `typedef struct name {` / `} alias;` when explicit, and
      `struct name {` / `};` without a typedef. */
  lemma StructTypedefTable(name: string, td: Option<CTypedefKind>)
    ensures td == Some(Unnamed) ==>
      TypedefHeader("struct", name, td) == "typedef struct {\n" && TypedefFooter(name, td) == "} " + name + ";"
    ensures td == Some(Named) ==>
      TypedefHeader("struct", name, td) == "typedef struct " + name + " {\n" && TypedefFooter(name, td) == "} " + name + ";"
    ensures td.Some? && td.value.Explicit? ==>
      TypedefHeader("struct", name, td) == "typedef struct " + name + " {\n" && TypedefFooter(name, td) == "} " + td.value.alias + ";"
    ensures td == None ==>
      TypedefHeader("struct", name, td) == "struct " + name + " {\n" && TypedefFooter(name, td) == "};"
  {
  }

  /** The text ends with the footer's `;`, never with a newline. */
  lemma StructEndsWithSemicolon(name: string, td: Option<CTypedefKind>, ms: seq<CTypeDecl>)
    ensures var t := StructText(name, td, ms); |t| > 0 && t[|t| - 1] == ';'
  {
    HeaderFooterEnds("struct", name, td);
  }

  predicate NoNewlineIn(m: CTypeDecl) {
    '\n' !in m.ty && '\n' !in m.name
  }

  /** A member line holds exactly one newline, at its end. */
  lemma MemberLineNewlines(m: CTypeDecl)
    requires NoNewlineIn(m)
    ensures Count('\n', MemberLine(m)) == 1
  {
    TypeDeclAvoids(m, '\n');
    assert '\n' !in "    " + m.Render();
    CountZero('\n', "    " + m.Render());
    CountConcat('\n', "    " + m.Render(), "\n");
    assert Count('\n', "\n") == 1;
  }

  lemma MemberLinesNewlines(ms: seq<CTypeDecl>)
    requires forall i :: 0 <= i < |ms| ==> NoNewlineIn(ms[i])
    ensures Count('\n', MemberLines(ms)) == |ms|
  {
    forall i | 0 <= i < |ms| ensures Count('\n', MemberLine(ms[i])) == 1 {
      MemberLineNewlines(ms[i]);
    }
    ConcatMapCount(MemberLine, ms, '\n');
  }

  /** With newline-free names and types a struct spans exactly |members| + 1
      newlines: one ending the header and one ending each member line. */
  lemma StructNewlines(name: string, td: Option<CTypedefKind>, ms: seq<CTypeDecl>)
    requires '\n' !in name
    requires td.Some? && td.value.Explicit? ==> '\n' !in td.value.alias
    requires forall i :: 0 <= i < |ms| ==> NoNewlineIn(ms[i])
    ensures Count('\n', StructText(name, td, ms)) == |ms| + 1
  {
    HeaderNewlines("struct", name, td);
    MemberLinesNewlines(ms);
    FooterNewlines(name, td);
    CountConcat('\n', TypedefHeader("struct", name, td), MemberLines(ms));
    CountConcat('\n', TypedefHeader("struct", name, td) + MemberLines(ms), TypedefFooter(name, td));
  }

  /** The crate's own struct test, built with the same calls; the expected
      text is written line by line. */
  method StructExample() returns (out: string)
    ensures out == "typedef struct struct_foo {\n"
                 + "    uint8_t a;\n"
                 + "    uint16_t b[35];\n"
                 + "    const char * name;\n"
                 + "    const int c[];\n"
                 + "} foo;"
  {
    var s := new CStruct("struct_foo");
    s.AsTypedef(Explicit("foo"));
    s.Member("uint8_t", "a");
    s.AddMember(CTypeDecl.New("uint16_t", "b").SizedArray(35));
    s.AddMember(CTypeDecl.New("char *", "name").Const());
    s.AddMember(CTypeDecl.New("int", "c").Const().UnsizedArray());
    out := s.Render();
    ExampleText(s.members);
  }

  lemma ExampleText(ms: seq<CTypeDecl>)
    requires ms == [CTypeDecl.New("uint8_t", "a"), CTypeDecl.New("uint16_t", "b").SizedArray(35),
                    CTypeDecl.New("char *", "name").Const(), CTypeDecl.New("int", "c").Const().UnsizedArray()]
    ensures StructText("struct_foo", Some(Explicit("foo")), ms)
         == "typedef struct struct_foo {\n"
          + "    uint8_t a;\n"
          + "    uint16_t b[35];\n"
          + "    const char * name;\n"
          + "    const int c[];\n"
          + "} foo;"
  {
    var h, l0, l1, l2, l3 := "typedef struct struct_foo {\n", "    uint8_t a;\n", "    uint16_t b[35];\n",
      "    const char * name;\n", "    const int c[];\n";
    assert TypedefHeader("struct", "struct_foo", Some(Explicit("foo"))) == h;
    assert TypedefFooter("struct_foo", Some(Explicit("foo"))) == "} foo;";
    ExampleLines(ms);
    AppendAssoc(h, l0 + l1 + l2, l3);
    AppendAssoc(h, l0 + l1, l2);
    AppendAssoc(h, l0, l1);
  }

  lemma ExampleLines(ms: seq<CTypeDecl>)
    requires ms == [CTypeDecl.New("uint8_t", "a"), CTypeDecl.New("uint16_t", "b").SizedArray(35),
                    CTypeDecl.New("char *", "name").Const(), CTypeDecl.New("int", "c").Const().UnsizedArray()]
    ensures MemberLines(ms) == "    uint8_t a;\n" + "    uint16_t b[35];\n" + "    const char * name;\n" + "    const int c[];\n"
  {
    ExampleLine0();
    ExampleLine1();
    ExampleLine2();
    ExampleLine3();
    assert ms == [ms[0]] + [ms[1]] + [ms[2]] + [ms[3]];
    ConcatMapAppend(MemberLine, [ms[0]] + [ms[1]] + [ms[2]], [ms[3]]);
    ConcatMapAppend(MemberLine, [ms[0]] + [ms[1]], [ms[2]]);
    ConcatMapAppend(MemberLine, [ms[0]], [ms[1]]);
    ConcatMapSingle(MemberLine, ms[0]);
    ConcatMapSingle(MemberLine, ms[1]);
    ConcatMapSingle(MemberLine, ms[2]);
    ConcatMapSingle(MemberLine, ms[3]);
  }

  lemma ExampleLine0()
    ensures MemberLine(CTypeDecl.New("uint8_t", "a")) == "    uint8_t a;\n"
  {
  }

  lemma ExampleLine1()
    ensures MemberLine(CTypeDecl.New("uint16_t", "b").SizedArray(35)) == "    uint16_t b[35];\n"
  {
    assert NatToDecimal(35) == "35" by { assert NatToDecimal(3) == "3"; }
    assert CTypeDecl.New("uint16_t", "b").SizedArray(35).Render() == "uint16_t b[35];";
  }

  lemma ExampleLine2()
    ensures MemberLine(CTypeDecl.New("char *", "name").Const()) == "    const char * name;\n"
  {
    assert CTypeDecl.New("char *", "name").Const().Render() == "const char * name;";
  }

  lemma ExampleLine3()
    ensures MemberLine(CTypeDecl.New("int", "c").Const().UnsizedArray()) == "    const int c[];\n"
  {
    assert CTypeDecl.New("int", "c").Const().UnsizedArray().Render() == "const int c[];";
  }
}
