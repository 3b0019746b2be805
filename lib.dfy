/** The primitive value types of the crate root and the member/argument
    declarator `CTypeDecl`, whose text always ends in `;`. Also the typedef
    header and footer that structs and enums share. */
module Lib {
  import opened Base

  datatype CStorageClass = Extern | Static {
    /** The storage-class keyword. */
    function Render(): (r: string)
      ensures (r == "extern") <==> Extern?
      ensures (r == "static") <==> Static?
    {
      match this
      case Extern => "extern"
      case Static => "static"
    }
  }

  datatype CArraySize = Unsized | Sized(extent: nat)

  /** How a struct or enum is wrapped in a typedef. */
  datatype CTypedefKind =
    | Named                   // typedef name is the struct/enum name
    | Explicit(alias: string) // typedef name is the alias
    | Unnamed                 // the struct/enum itself has no tag

  /** `"s "` before a declaration when a storage class is set, otherwise nothing. */
  function StoragePrefix(s: Option<CStorageClass>): string {
    if s.Some? then s.value.Render() + " " else ""
  }

  function ConstPrefix(isConst: bool): string {
    if isConst then "const " else ""
  }

  /** The array part of a declarator: `[n]`, `[]` or nothing. */
  function ArraySuffix(a: Option<CArraySize>): string {
    match a
    case None => ""
    case Some(Unsized) => "[]"
    case Some(Sized(n)) => "[" + NatToDecimal(n) + "]"
  }

  /** A typed, possibly const, possibly array binding, written as a struct
      member or a function argument. */
  datatype CTypeDecl = CTypeDecl(name: string, ty: string, arraySize: Option<CArraySize>, isConst: bool) {

    static function New(ty: string, name: string): (d: CTypeDecl)
      ensures d.ty == ty && d.name == name
      ensures !d.isConst && d.arraySize == None
    {
      CTypeDecl(name, ty, None, false)
    }

    function Const(): (d: CTypeDecl)
      ensures d.isConst
      ensures d.name == name && d.ty == ty && d.arraySize == arraySize
    {
      this.(isConst := true)
    }

    function SizedArray(n: nat): (d: CTypeDecl)
      ensures d.arraySize == Some(Sized(n))
      ensures d.name == name && d.ty == ty && d.isConst == isConst
    {
      this.(arraySize := Some(Sized(n)))
    }

    function UnsizedArray(): (d: CTypeDecl)
      ensures d.arraySize == Some(Unsized)
      ensures d.name == name && d.ty == ty && d.isConst == isConst
    {
      this.(arraySize := Some(Unsized))
    }

    /** `[const ]type name[array];` */
    function Render(): string {
      var head := (if isConst then "const " else "") + ty + " ";
      match arraySize
      case Some(Sized(s)) => head + name + "[" + NatToDecimal(s) + "];"
      case Some(Unsized) => head + name + "[];"
      case None => head + name + ";"
    }
  }

  /** The storage prefix is the keyword and one space, or nothing. */
  lemma StoragePrefixTable(s: Option<CStorageClass>)
    ensures s == None ==> StoragePrefix(s) == ""
    ensures s == Some(Extern) ==> StoragePrefix(s) == "extern "
    ensures s == Some(Static) ==> StoragePrefix(s) == "static "
  {
  }

  /** The array suffix is `[n]` for a sized array, `[]` for an unsized one
      and nothing otherwise. */
  lemma ArraySuffixTable(a: Option<CArraySize>)
    ensures a == None ==> ArraySuffix(a) == ""
    ensures a == Some(Unsized) ==> ArraySuffix(a) == "[]"
    ensures a.Some? && a.value.Sized? ==> ArraySuffix(a) == "[" + NatToDecimal(a.value.extent) + "]"
    ensures (ArraySuffix(a) == "") <==> (a == None)
  {
  }

  /** A member declarator is `const ` if const, the type, a space, the name,
      the array suffix and `;`, in this order. */
  lemma TypeDeclShape(d: CTypeDecl)
    ensures d.Render() == ConstPrefix(d.isConst) + d.ty + " " + d.name + ArraySuffix(d.arraySize) + ";"
  {
  }

  /** A fresh declarator renders as `type name;`. */
  lemma NewTypeDeclRender(ty: string, name: string)
    ensures CTypeDecl.New(ty, name).Render() == ty + " " + name + ";"
  {
  }

  /** A member declarator always ends in `;`. */
  lemma TypeDeclEndsWithSemicolon(d: CTypeDecl)
    ensures var r := d.Render(); |r| >= 2 && r[|r| - 1] == ';'
  {
  }

  /** Calling `const_` twice is the same as calling it once. */
  lemma ConstIdempotent(d: CTypeDecl)
    ensures d.Const().Const() == d.Const()
  {
  }

  /** The array qualifier is overwritten: the last of `sized_array` and
      `unsized_array` wins, and `const_` commutes with both. */
  lemma ArrayLastWins(d: CTypeDecl, n: nat, m: nat)
    ensures d.SizedArray(n).SizedArray(m) == d.SizedArray(m)
    ensures d.UnsizedArray().SizedArray(m) == d.SizedArray(m)
    ensures d.SizedArray(n).UnsizedArray() == d.UnsizedArray()
    ensures d.Const().SizedArray(n) == d.SizedArray(n).Const()
    ensures d.Const().UnsizedArray() == d.UnsizedArray().Const()
  {
  }

  /** A declarator whose type and name avoid a character other than '-',
      '[', ']', ';', ' ', the digits and the letters of "const" renders
      without that character; in particular without a newline. */
  lemma TypeDeclAvoids(d: CTypeDecl, c: char)
    requires c !in d.ty && c !in d.name
    requires c != '-' && !IsDigit(c) && c !in "[]; const"
    ensures c !in d.Render()
  {
    TypeDeclShape(d);
    if d.arraySize.Some? && d.arraySize.value.Sized? {
      DecimalHasOnly(d.arraySize.value.extent, c);
      assert IntToDecimal(d.arraySize.value.extent) == NatToDecimal(d.arraySize.value.extent);
    }
  }

  /** First line of a struct or enum, without its newline: `typedef kw {`,
      `typedef kw name {` or `kw name {`. */
  function HeaderLine(keyword: string, name: string, td: Option<CTypedefKind>): string {
    match td
    case Some(Unnamed) => "typedef " + keyword + " {"
    case Some(Explicit(_)) => "typedef " + keyword + " " + name + " {"
    case Some(Named) => "typedef " + keyword + " " + name + " {"
    case None => keyword + " " + name + " {"
  }

  /** The header is written as one whole line. */
  function TypedefHeader(keyword: string, name: string, td: Option<CTypedefKind>): string {
    HeaderLine(keyword, name, td) + "\n"
  }

  /** Last line of a struct or enum, with no newline: `} alias;`, `} name;` or `};`. */
  function TypedefFooter(name: string, td: Option<CTypedefKind>): string {
    if td.Some? then
      if td.value.Explicit? then "} " + td.value.alias + ";" else "} " + name + ";"
    else
      "};"
  }

  /** The typedef table: which header and footer each kind selects. */
  lemma TypedefTable(keyword: string, name: string, td: Option<CTypedefKind>)
    ensures td == Some(Unnamed) ==> TypedefHeader(keyword, name, td) == "typedef " + keyword + " {\n"
    ensures td.Some? && !td.value.Unnamed? ==> TypedefHeader(keyword, name, td) == "typedef " + keyword + " " + name + " {\n"
    ensures td == None ==> TypedefHeader(keyword, name, td) == keyword + " " + name + " {\n"
    ensures td.Some? && td.value.Explicit? ==> TypedefFooter(name, td) == "} " + td.value.alias + ";"
    ensures td.Some? && !td.value.Explicit? ==> TypedefFooter(name, td) == "} " + name + ";"
    ensures td == None ==> TypedefFooter(name, td) == "};"
  {
  }

  /** The header ends its line; the footer starts with `}` and ends with `;`. */
  lemma HeaderFooterEnds(keyword: string, name: string, td: Option<CTypedefKind>)
    ensures var h := TypedefHeader(keyword, name, td); |h| >= 3 && h[|h| - 1] == '\n'
    ensures var f := TypedefFooter(name, td); |f| >= 2 && f[0] == '}' && f[|f| - 1] == ';'
  {
  }

  /** The header holds exactly one newline when the name holds none. */
  lemma HeaderNewlines(keyword: string, name: string, td: Option<CTypedefKind>)
    requires '\n' !in keyword && '\n' !in name
    ensures Count('\n', TypedefHeader(keyword, name, td)) == 1
  {
    var line := HeaderLine(keyword, name, td);
    assert '\n' !in line;
    CountZero('\n', line);
    CountConcat('\n', line, "\n");
  }

  /** The footer holds no newline when neither name nor alias does. */
  lemma FooterNewlines(name: string, td: Option<CTypedefKind>)
    requires '\n' !in name
    requires td.Some? && td.value.Explicit? ==> '\n' !in td.value.alias
    ensures Count('\n', TypedefFooter(name, td)) == 0
  {
    assert '\n' !in TypedefFooter(name, td);
    CountZero('\n', TypedefFooter(name, td));
  }
}
