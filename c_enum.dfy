/** The enum builder and its renderer. Members are (name, optional value)
    pairs kept in insertion order with no check of the values: duplicates
    and decreasing values are accepted as given. */
module Enums {
  import opened Base
  import opened Lib

  /** One member line: `    n = v,` or `    n,`, each with a trailing comma and a newline. */
  function EnumLine(member: (string, Option<int>)): string {
    if member.1.Some? then "    " + member.0 + " = " + IntToDecimal(member.1.value) + ",\n"
    else "    " + member.0 + ",\n"
  }

  function EnumLines(ms: seq<(string, Option<int>)>): string {
    ConcatMap(EnumLine, ms)
  }

  datatype CEnum = CEnum(name: string, typedef: Option<CTypedefKind>, members: seq<(string, Option<int>)>) {

    static function New(name: string): (e: CEnum)
      ensures e.name == name && e.typedef == None && e.members == []
    {
      CEnum(name, None, [])
    }

    function AsTypedef(td: CTypedefKind): (e: CEnum)
      ensures e.typedef == Some(td)
      ensures e.name == name && e.members == members
    {
      this.(typedef := Some(td))
    }

    /** Appends a member; never rejects and never reorders. */
    function Member(memberName: string, value: Option<int>): (e: CEnum)
      ensures e.members == members + [(memberName, value)]
      ensures e.name == name && e.typedef == typedef
    {
      this.(members := members + [(memberName, value)])
    }

    /** Writes the header, then one line per member, then the footer. */
    method Render() returns (out: string)
      ensures out == EnumText(this)
    {
      var header := TypedefHeader("enum", name, typedef);
      out := header;
      for i := 0 to |members|
        invariant out == header + EnumLines(members[..i])
      {
        assert members[..i + 1] == members[..i] + [members[i]];
        ConcatMapAppend(EnumLine, members[..i], [members[i]]);
        ConcatMapSingle(EnumLine, members[i]);
        AppendAssoc(header, EnumLines(members[..i]), EnumLine(members[i]));
        var (n, d) := members[i];
        var line;
        if d.Some? {
          line := "    " + n + " = " + IntToDecimal(d.value) + ",\n";
        } else {
          line := "    " + n + ",\n";
        }
        assert line == EnumLine(members[i]);
        out := out + line;
      }
      assert members[..|members|] == members;
      out := out + TypedefFooter(name, typedef);
    }
  }

  /** The complete text of an enum definition. */
  function EnumText(e: CEnum): string {
    TypedefHeader("enum", e.name, e.typedef) + EnumLines(e.members) + TypedefFooter(e.name, e.typedef)
  }

  /** `member` accepts any name and value: repeated and decreasing values
      are kept as given, in call order. */
  lemma MemberAcceptsAnyValue(e: CEnum, n1: string, n2: string, v: int, w: int)
    requires w <= v
    ensures e.Member(n1, Some(v)).Member(n2, Some(w)).members == e.members + [(n1, Some(v)), (n2, Some(w))]
  {
  }

  /** Member lines follow insertion order: the lines of a concatenation are
      the concatenation of the lines, and `member` adds exactly one line
      just before the footer. */
  lemma EnumLinesConcat(a: seq<(string, Option<int>)>, b: seq<(string, Option<int>)>)
    ensures EnumLines(a + b) == EnumLines(a) + EnumLines(b)
  {
    ConcatMapAppend(EnumLine, a, b);
  }

  lemma MemberText(e: CEnum, n: string, v: Option<int>)
    ensures EnumText(e.Member(n, v))
         == TypedefHeader("enum", e.name, e.typedef) + EnumLines(e.members) + EnumLine((n, v)) + TypedefFooter(e.name, e.typedef)
  {
    EnumLinesConcat(e.members, [(n, v)]);
    ConcatMapSingle(EnumLine, (n, v));
  }

  /** Every member line, the last included, ends with `,` and a newline. */
  lemma EnumLineEndsWithComma(member: (string, Option<int>))
    ensures var l := EnumLine(member); |l| >= 2 && l[|l| - 2..] == ",\n"
  {
  }

  /** Header and footer by typedef kind, the same table as for structs with
      the keyword `enum`. */
  lemma EnumTypedefTable(name: string, td: Option<CTypedefKind>)
    ensures td == Some(Unnamed) ==>
      TypedefHeader("enum", name, td) == "typedef enum {\n" && TypedefFooter(name, td) == "} " + name + ";"
    ensures td == Some(Named) ==>
      TypedefHeader("enum", name, td) == "typedef enum " + name + " {\n" && TypedefFooter(name, td) == "} " + name + ";"
    ensures td.Some? && td.value.Explicit? ==>
      TypedefHeader("enum", name, td) == "typedef enum " + name + " {\n" && TypedefFooter(name, td) == "} " + td.value.alias + ";"
    ensures td == None ==>
      TypedefHeader("enum", name, td) == "enum " + name + " {\n" && TypedefFooter(name, td) == "};"
  {
  }

  predicate PlainName(n: string) {
    '\n' !in n && ',' !in n
  }

  lemma EnumLineCounts(member: (string, Option<int>))
    requires PlainName(member.0)
    ensures Count('\n', EnumLine(member)) == 1
    ensures Count(',', EnumLine(member)) == 1
  {
    var body := if member.1.Some? then "    " + member.0 + " = " + IntToDecimal(member.1.value) else "    " + member.0;
    if member.1.Some? {
      DecimalHasOnly(member.1.value, '\n');
      DecimalHasOnly(member.1.value, ',');
    }
    assert EnumLine(member) == body + ",\n";
    CountZero('\n', body);
    CountZero(',', body);
    CountConcat('\n', body, ",\n");
    CountConcat(',', body, ",\n");
    assert Count('\n', ",\n") == 1 && Count(',', ",\n") == 1;
  }

  /** With plain member names the body holds one comma per member (so the
      last member has one too) and one newline per member. */
  lemma EnumLinesCounts(ms: seq<(string, Option<int>)>)
    requires forall i :: 0 <= i < |ms| ==> PlainName(ms[i].0)
    ensures Count(',', EnumLines(ms)) == |ms|
    ensures Count('\n', EnumLines(ms)) == |ms|
  {
    forall i | 0 <= i < |ms|
      ensures Count(',', EnumLine(ms[i])) == 1 && Count('\n', EnumLine(ms[i])) == 1
    {
      EnumLineCounts(ms[i]);
    }
    ConcatMapCount(EnumLine, ms, ',');
    ConcatMapCount(EnumLine, ms, '\n');
  }

  /** The text ends with the footer's `;`, never with a newline. */
  lemma EnumEndsWithSemicolon(e: CEnum)
    ensures var t := EnumText(e); |t| > 0 && t[|t| - 1] == ';'
  {
    HeaderFooterEnds("enum", e.name, e.typedef);
  }

  /** With plain names the whole enum spans |members| + 1 newlines: one
      ending the header and one ending each member line. */
  lemma EnumNewlines(e: CEnum)
    requires '\n' !in e.name
    requires e.typedef.Some? && e.typedef.value.Explicit? ==> '\n' !in e.typedef.value.alias
    requires forall i :: 0 <= i < |e.members| ==> PlainName(e.members[i].0)
    ensures Count('\n', EnumText(e)) == |e.members| + 1
  {
    HeaderNewlines("enum", e.name, e.typedef);
    EnumLinesCounts(e.members);
    FooterNewlines(e.name, e.typedef);
    var h := TypedefHeader("enum", e.name, e.typedef);
    CountConcat('\n', h, EnumLines(e.members));
    CountConcat('\n', h + EnumLines(e.members), TypedefFooter(e.name, e.typedef));
  }

  /** The crate's own enum test; the expected text is written line by line. */
  lemma EnumExample()
    ensures EnumText(CEnum.New("enum_foo").AsTypedef(Explicit("enum2"))
                       .Member("ENUM_FOO_A", None).Member("ENUM_FOO_B", Some(5))
                       .Member("ENUM_FOO_C", Some(7)).Member("ENUM_FOO_D", None))
         == "typedef enum enum_foo {\n"
          + "    ENUM_FOO_A,\n"
          + "    ENUM_FOO_B = 5,\n"
          + "    ENUM_FOO_C = 7,\n"
          + "    ENUM_FOO_D,\n"
          + "} enum2;"
  {
    var ms := [("ENUM_FOO_A", None), ("ENUM_FOO_B", Some(5)), ("ENUM_FOO_C", Some(7)), ("ENUM_FOO_D", None)];
    var e := CEnum("enum_foo", Some(Explicit("enum2")), ms);
    assert CEnum.New("enum_foo").AsTypedef(Explicit("enum2"))
             .Member("ENUM_FOO_A", None).Member("ENUM_FOO_B", Some(5))
             .Member("ENUM_FOO_C", Some(7)).Member("ENUM_FOO_D", None) == e;
    var h, l0, l1, l2, l3 := "typedef enum enum_foo {\n", "    ENUM_FOO_A,\n", "    ENUM_FOO_B = 5,\n",
      "    ENUM_FOO_C = 7,\n", "    ENUM_FOO_D,\n";
    assert TypedefHeader("enum", "enum_foo", Some(Explicit("enum2"))) == h;
    assert TypedefFooter("enum_foo", Some(Explicit("enum2"))) == "} enum2;";
    ExampleLines(ms);
    AppendAssoc(h, l0 + l1 + l2, l3);
    AppendAssoc(h, l0 + l1, l2);
    AppendAssoc(h, l0, l1);
  }

  lemma ExampleLines(ms: seq<(string, Option<int>)>)
    requires ms == [("ENUM_FOO_A", None), ("ENUM_FOO_B", Some(5)), ("ENUM_FOO_C", Some(7)), ("ENUM_FOO_D", None)]
    ensures EnumLines(ms) == "    ENUM_FOO_A,\n" + "    ENUM_FOO_B = 5,\n" + "    ENUM_FOO_C = 7,\n" + "    ENUM_FOO_D,\n"
  {
    ExampleLine0();
    ExampleLine1();
    ExampleLine2();
    ExampleLine3();
    assert ms == [ms[0]] + [ms[1]] + [ms[2]] + [ms[3]];
    ConcatMapAppend(EnumLine, [ms[0]] + [ms[1]] + [ms[2]], [ms[3]]);
    ConcatMapAppend(EnumLine, [ms[0]] + [ms[1]], [ms[2]]);
    ConcatMapAppend(EnumLine, [ms[0]], [ms[1]]);
    ConcatMapSingle(EnumLine, ms[0]);
    ConcatMapSingle(EnumLine, ms[1]);
    ConcatMapSingle(EnumLine, ms[2]);
    ConcatMapSingle(EnumLine, ms[3]);
  }

  lemma ExampleLine0()
    ensures EnumLine(("ENUM_FOO_A", None)) == "    ENUM_FOO_A,\n"
  {
  }

  lemma ExampleLine1()
    ensures EnumLine(("ENUM_FOO_B", Some(5))) == "    ENUM_FOO_B = 5,\n"
  {
    assert IntToDecimal(5) == "5";
  }

  lemma ExampleLine2()
    ensures EnumLine(("ENUM_FOO_C", Some(7))) == "    ENUM_FOO_C = 7,\n"
  {
    assert IntToDecimal(7) == "7";
  }

  lemma ExampleLine3()
    ensures EnumLine(("ENUM_FOO_D", None)) == "    ENUM_FOO_D,\n"
  {
  }
}
