/** Function declarations and function implementations. A declaration
    renders as `[storage ]ret name (args)`, with a space before the
    parenthesis and the member declarators of the arguments, each with its
    own `;`, joined by a bare `,`. An implementation only collects body
    lines; it has no renderer. */
module Fns {
  import opened Base
  import opened Lib

  /** The text of one argument: its member declarator with its `;`. */
  function ArgText(a: CTypeDecl): string {
    a.Render()
  }

  /** The argument texts joined by `,`, with no separator before the first
      or after the last. */
  function ArgList(args: seq<CTypeDecl>): string {
    JoinMap(ArgText, ",", args)
  }

  datatype CFnDecl = CFnDecl(name: string, ret: string, storage: Option<CStorageClass>, args: seq<CTypeDecl>) {

    static function New(name: string): (d: CFnDecl)
      ensures d.name == name && d.ret == "void" && d.storage == None && d.args == []
    {
      CFnDecl(name, "void", None, [])
    }

    function Ret(retType: string): (d: CFnDecl)
      ensures d.ret == retType
      ensures d.name == name && d.storage == storage && d.args == args
    {
      this.(ret := retType)
    }

    function Static(): (d: CFnDecl)
      ensures d.storage == Some(CStorageClass.Static)
      ensures d.name == name && d.ret == ret && d.args == args
    {
      this.(storage := Some(CStorageClass.Static))
    }

    function Extern(): (d: CFnDecl)
      ensures d.storage == Some(CStorageClass.Extern)
      ensures d.name == name && d.ret == ret && d.args == args
    {
      this.(storage := Some(CStorageClass.Extern))
    }

    /** Appends an argument after the existing ones. */
    function Arg(a: CTypeDecl): (d: CFnDecl)
      ensures d.args == args + [a]
      ensures d.name == name && d.ret == ret && d.storage == storage
    {
      this.(args := args + [a])
    }

    /** Writes the storage prefix, `ret name (`, each argument followed by
        `,` unless it is the last, and `)`. */
    method Render() returns (out: string)
      ensures out == FnDeclText(this)
    {
      var head := StoragePrefix(storage) + ret + " " + name + " (";
      out := head;
      var idx := 0;
      while idx < |args|
        invariant 0 <= idx <= |args|
        invariant out == head + ArgList(args[..idx]) + (if 0 < idx < |args| then "," else "")
      {
        var text := args[idx].Render();
        ArgStep(head, args, idx);
        out := out + text;
        // `len() - 1` on an unsigned length: it is evaluated only here,
        // where the length is at least one, so it cannot wrap.
        var last: nat := |args| - 1;
        if idx < last {
          out := out + ",";
        }
        idx := idx + 1;
      }
      assert args[..|args|] == args;
      out := out + ")";
    }
  }

  /** One loop step: after the separator owed to the previous argument,
      the next argument's text extends the joined prefix by one element. */
  lemma ArgStep(head: string, args: seq<CTypeDecl>, idx: nat)
    requires idx < |args|
    ensures head + ArgList(args[..idx]) + (if 0 < idx then "," else "") + ArgText(args[idx])
         == head + ArgList(args[..idx + 1])
  {
    assert args[..idx + 1] == args[..idx] + [args[idx]];
    JoinMapSnoc(ArgText, ",", args[..idx], args[idx]);
    if idx > 0 {
      AppendAssoc(head + ArgList(args[..idx]), ",", ArgText(args[idx]));
      AppendAssoc(head, ArgList(args[..idx]) + ",", ArgText(args[idx]));
    } else {
      AppendAssoc(head, ArgList(args[..idx]), ArgText(args[idx]));
    }
  }

  /** The complete text of a function declaration. */
  function FnDeclText(d: CFnDecl): string {
    StoragePrefix(d.storage) + d.ret + " " + d.name + " (" + ArgList(d.args) + ")"
  }

  /** Builders: the last of `static_` and `extern_` wins, `ret` overwrites
      the return type, and neither touches the arguments. */
  lemma BuildersLastWins(d: CFnDecl, t1: string, t2: string, a: CTypeDecl)
    ensures d.Static().Extern() == d.Extern() && d.Extern().Static() == d.Static()
    ensures d.Ret(t1).Ret(t2) == d.Ret(t2)
    ensures d.Arg(a).Static() == d.Static().Arg(a) && d.Arg(a).Extern() == d.Extern().Arg(a)
    ensures d.Arg(a).Ret(t1) == d.Ret(t1).Arg(a)
  {
  }

  /** `arg` adds exactly its text at the end of the list, after a `,` when
      there were arguments before it. */
  lemma ArgAppendsText(d: CFnDecl, a: CTypeDecl)
    ensures ArgList(d.Arg(a).args) == if d.args == [] then a.Render() else ArgList(d.args) + "," + a.Render()
  {
    JoinMapSnoc(ArgText, ",", d.args, a);
  }

  /** Argument texts keep call order: the list of a concatenation is the
      two lists joined by one `,`. */
  lemma ArgListConcat(a: seq<CTypeDecl>, b: seq<CTypeDecl>)
    requires a != [] && b != []
    ensures ArgList(a + b) == ArgList(a) + "," + ArgList(b)
  {
    JoinMapAppend(ArgText, ",", a, b);
  }

  predicate NoCommaIn(a: CTypeDecl) {
    ',' !in a.ty && ',' !in a.name
  }

  lemma TypeDeclCommas(a: CTypeDecl)
    requires NoCommaIn(a)
    ensures Count(',', a.Render()) == 0
  {
    TypeDeclAvoids(a, ',');
    CountZero(',', a.Render());
  }

  /** With comma-free argument texts, exactly |args| - 1 commas separate
      the arguments, and none follows the last: a non-empty list ends with
      the last argument's `;`. */
  lemma ArgListCommas(args: seq<CTypeDecl>)
    requires forall i :: 0 <= i < |args| ==> NoCommaIn(args[i])
    ensures Count(',', ArgList(args)) == if args == [] then 0 else |args| - 1
    ensures args != [] ==> var t := ArgList(args); |t| > 0 && t[|t| - 1] == ';'
  {
    forall i | 0 <= i < |args| ensures Count(',', ArgText(args[i])) == 0 {
      TypeDeclCommas(args[i]);
    }
    assert Count(',', ",") == 1;
    JoinMapCount(ArgText, ",", args, ',');
    if args != [] {
      JoinMapEndsWithLast(ArgText, ",", args);
      TypeDeclEndsWithSemicolon(args[|args| - 1]);
    }
  }

  /** A declaration without arguments renders `ret name ()`. */
  lemma NoArgsText(d: CFnDecl)
    requires d.args == []
    ensures FnDeclText(d) == StoragePrefix(d.storage) + d.ret + " " + d.name + " ()"
  {
  }

  /** A fresh declaration renders `void name ()`. */
  lemma NewText(name: string)
    ensures FnDeclText(CFnDecl.New(name)) == "void " + name + " ()"
  {
  }

  /** Two arguments are joined as the source joins them: `a;,b;`. */
  lemma TwoArgsText(d: CFnDecl, a: CTypeDecl, b: CTypeDecl)
    requires d.args == []
    ensures FnDeclText(d.Arg(a).Arg(b))
         == StoragePrefix(d.storage) + d.ret + " " + d.name + " (" + a.Render() + "," + b.Render() + ")"
  {
    assert d.Arg(a).Arg(b).args == [a] + [b];
    JoinMapSnoc(ArgText, ",", [a], b);
    assert ArgList([a]) == a.Render();
  }

  /** A concrete declaration, built and rendered with the same calls. */
  method FnDeclExample() returns (out: string)
    ensures out == "static int add (int a;,const int b[];)"
  {
    var a := CTypeDecl.New("int", "a");
    var b := CTypeDecl.New("int", "b").Const().UnsizedArray();
    var d := CFnDecl.New("add").Ret("int").Static();
    out := d.Arg(a).Arg(b).Render();
    TwoArgsText(d, a, b);
    ExampleArgs(a, b);
    ExampleHead(d);
  }

  lemma ExampleArgs(a: CTypeDecl, b: CTypeDecl)
    requires a == CTypeDecl.New("int", "a") && b == CTypeDecl.New("int", "b").Const().UnsizedArray()
    ensures a.Render() + "," + b.Render() + ")" == "int a;,const int b[];)"
  {
    assert a.Render() == "int a;";
    assert b.Render() == "const int b[];";
  }

  lemma ExampleHead(d: CFnDecl)
    requires d == CFnDecl.New("add").Ret("int").Static()
    ensures StoragePrefix(d.storage) + d.ret + " " + d.name + " (" == "static int add ("
  {
    assert d == CFnDecl("add", "int", Some(CStorageClass.Static), []);
  }

  /** A function implementation: a declaration and body lines. */
  datatype CFnImpl = CFnImpl(decl: CFnDecl, body: seq<string>) {

    static function New(name: string): (f: CFnImpl)
      ensures f.decl == CFnDecl.New(name) && f.body == []
    {
      CFnImpl(CFnDecl.New(name), [])
    }

    /** The conversion from a declaration. */
    static function From(d: CFnDecl): (f: CFnImpl)
      ensures f.decl == d && f.body == []
    {
      CFnImpl(d, [])
    }

    function AddLine(line: string): (f: CFnImpl)
      ensures f.body == body + [line]
      ensures f.decl == decl
    {
      this.(body := body + [line])
    }
  }

  /** Starting from a name is starting from the fresh declaration of that
      name, and body lines keep their call order. */
  lemma ImplBuilders(name: string, f: CFnImpl, l1: string, l2: string)
    ensures CFnImpl.New(name) == CFnImpl.From(CFnDecl.New(name))
    ensures f.AddLine(l1).AddLine(l2).body == f.body + [l1, l2]
    ensures f.AddLine(l1).AddLine(l2).decl == f.decl
  {
  }
}
