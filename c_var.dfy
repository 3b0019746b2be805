/** Variable definitions: the declarator `CVarDecl`, written without a
    semicolon, and `CVar`, which adds a storage class before it and an
    initializer after it. */
module CVars {
  import opened Base
  import opened Lib

  /** `const uint32_t mytype`: the inline declarator of a variable. */
  datatype CVarDecl = CVarDecl(name: string, ty: string, arraySize: Option<CArraySize>, isConst: bool) {

    static function New(ty: string, name: string): (d: CVarDecl)
      ensures d.ty == ty && d.name == name
      ensures !d.isConst && d.arraySize == None
    {
      CVarDecl(name, ty, None, false)
    }

    /** The conversion from a `(type, name)` pair. */
    static function FromPair(pair: (string, string)): (d: CVarDecl)
      ensures d == New(pair.0, pair.1)
    {
      CVarDecl(pair.1, pair.0, None, false)
    }

    function Const(): (d: CVarDecl)
      ensures d.isConst
      ensures d.name == name && d.ty == ty && d.arraySize == arraySize
    {
      this.(isConst := true)
    }

    function SizedArray(n: nat): (d: CVarDecl)
      ensures d.arraySize == Some(Sized(n))
      ensures d.name == name && d.ty == ty && d.isConst == isConst
    {
      this.(arraySize := Some(Sized(n)))
    }

    function UnsizedArray(): (d: CVarDecl)
      ensures d.arraySize == Some(Unsized)
      ensures d.name == name && d.ty == ty && d.isConst == isConst
    {
      this.(arraySize := Some(Unsized))
    }

    /** `[const ]type name[array]`, with no semicolon. */
    function Render(): string {
      (if isConst then "const " else "") + ty + " " + name + ArraySuffix(arraySize)
    }

    /** The member declarator with the same fields. */
    function AsTypeDecl(): CTypeDecl {
      CTypeDecl(name, ty, arraySize, isConst)
    }
  }

  /** A variable definition. */
  datatype CVar = CVar(decl: CVarDecl, storage: Option<CStorageClass>, init: Option<string>) {

    static function From(d: CVarDecl): (v: CVar)
      ensures v.decl == d && v.storage == None && v.init == None
    {
      CVar(d, None, None)
    }

    function Extern(): (v: CVar)
      ensures v.storage == Some(CStorageClass.Extern)
      ensures v.decl == decl && v.init == init
    {
      this.(storage := Some(CStorageClass.Extern))
    }

    function Static(): (v: CVar)
      ensures v.storage == Some(CStorageClass.Static)
      ensures v.decl == decl && v.init == init
    {
      this.(storage := Some(CStorageClass.Static))
    }

    function Init(e: string): (v: CVar)
      ensures v.init == Some(e)
      ensures v.decl == decl && v.storage == storage
    {
      this.(init := Some(e))
    }

    /** `[storage ]decl[ = init]`, with no semicolon. */
    function Render(): string {
      var s := if storage.Some? then storage.value.Render() + " " else "";
      var i := if init.Some? then " = " + init.value else "";
      s + decl.Render() + i
    }
  }

  /** The inline declarator is `const ` if const, the type, a space, the
      name and the array suffix, and holds no `;` unless its type or name does. */
  lemma VarDeclShape(d: CVarDecl)
    ensures d.Render() == ConstPrefix(d.isConst) + d.ty + " " + d.name + ArraySuffix(d.arraySize)
    ensures CVarDecl.New(d.ty, d.name).Render() == d.ty + " " + d.name
    ensures ';' !in d.ty && ';' !in d.name ==> ';' !in d.Render()
  {
    if d.arraySize.Some? && d.arraySize.value.Sized? {
      DecimalHasOnly(d.arraySize.value.extent, ';');
      assert IntToDecimal(d.arraySize.value.extent) == NatToDecimal(d.arraySize.value.extent);
    }
  }

  /** A variable definition is the optional storage keyword with a space, the
      inline declarator, and the optional ` = init`; `from` adds neither. */
  lemma VarShape(v: CVar)
    ensures v.Render() == StoragePrefix(v.storage) + v.decl.Render() + (if v.init.Some? then " = " + v.init.value else "")
    ensures CVar.From(v.decl).Render() == v.decl.Render()
  {
  }

  /** The inline declarator is the member declarator with its semicolon
      removed. */
  lemma DeclIsTypeDeclWithoutSemicolon(d: CVarDecl)
    ensures d.AsTypeDecl().Render() == d.Render() + ";"
  {
  }

  /** `from` then the pair conversion agree with `CTypeDecl::new` text. */
  lemma PairRender(a: string, b: string)
    ensures CVarDecl.FromPair((a, b)).Render() == a + " " + b
    ensures CVarDecl.FromPair((a, b)).AsTypeDecl() == CTypeDecl.New(a, b)
  {
  }

  /** Storage and initializer: the last call wins and the other fields are kept. */
  lemma BuildersLastWins(v: CVar, e1: string, e2: string)
    ensures v.Extern().Static() == v.Static() && v.Static().Extern() == v.Extern()
    ensures v.Init(e1).Init(e2) == v.Init(e2)
    ensures v.Static().Init(e1) == v.Init(e1).Static()
    ensures v.Extern().Init(e1) == v.Init(e1).Extern()
  {
  }

  /** A variable definition ends without a semicolon unless its text
      brings one. */
  lemma {:induction false} VarHasNoSemicolon(v: CVar)
    requires ';' !in v.decl.ty && ';' !in v.decl.name
    requires v.init.Some? ==> ';' !in v.init.value
    ensures ';' !in v.Render()
  {
    VarDeclShape(v.decl);
    var s := StoragePrefix(v.storage);
    var i := if v.init.Some? then " = " + v.init.value else "";
    assert ';' !in s;
    assert ';' !in v.decl.Render();
    assert ';' !in i;
    assert v.Render() == s + v.decl.Render() + i;
  }

  /** The scenario of the crate's own variable test. */
  lemma StaticConstArrayExample()
    ensures CVar.From(CVarDecl.New("uint8_t", "foo").Const().SizedArray(2)).Static().Init("{0, 0}").Render()
         == "static const uint8_t foo[2] = {0, 0}"
  {
    var d := CVarDecl("foo", "uint8_t", Some(Sized(2)), true);
    assert CVarDecl.New("uint8_t", "foo").Const().SizedArray(2) == d;
    ExampleDeclText();
    ExampleVarText(d);
  }

  lemma ExampleDeclText()
    ensures CVarDecl("foo", "uint8_t", Some(Sized(2)), true).Render() == "const uint8_t foo[2]"
  {
    assert ArraySuffix(Some(Sized(2))) == "[2]" by { assert NatToDecimal(2) == "2"; }
  }

  lemma ExampleVarText(d: CVarDecl)
    requires d.Render() == "const uint8_t foo[2]"
    ensures CVar.From(d).Static().Init("{0, 0}").Render() == "static const uint8_t foo[2] = {0, 0}"
  {
    assert CVar.From(d).Static().Init("{0, 0}") == CVar(d, Some(CStorageClass.Static), Some("{0, 0}"));
  }
}
