/** The scope of one C file: optional include guards and a list of
    snippets. Rendering a scope writes only the guard lines; the snippets
    are collected but never written. */
module Scope {
  import opened Base
  import opened Lib
  import opened Structs
  import opened Enums
  import opened Fns

  /** How a header protects itself against double inclusion. */
  datatype CIncludeGuards = PragmaOnce | String(symbol: string)

  /** The variable record of the crate root: only the payload of a
      global-variable snippet, with no builders and no renderer. */
  datatype CVar = CVar(name: string, ty: string, storage: Option<CStorageClass>, init: Option<string>,
                       arraySize: Option<CArraySize>, isConst: bool)

  datatype CSnippet =
    | LibInclude(lib: string)
    | FileInclude(file: string)
    | Raw(text: string)
    | Struct(structDef: CStruct)
    | Enum(enumDef: CEnum)
    | FnDecl(fnDecl: CFnDecl)
    | FnImpl(fnImpl: CFnImpl)
    | GlobalVar(globalVar: CVar)

  /** The lines written before the (unwritten) snippets. */
  function OpeningGuard(g: Option<CIncludeGuards>): string {
    match g
    case None => ""
    case Some(PragmaOnce) => "#pragma once\n"
    case Some(String(s)) => "#ifndef " + s + "\n" + "#define " + s + "\n"
  }

  /** The line written after them: only a string guard has one. */
  function ClosingGuard(g: Option<CIncludeGuards>): string {
    if g.Some? && g.value.String? then "#endif /* " + g.value.symbol + " */\n" else ""
  }

  /** The text of a scope with the given guards and snippets. */
  function ScopeText(g: Option<CIncludeGuards>, snippets: seq<CSnippet>): string {
    OpeningGuard(g) + ClosingGuard(g)
  }

  class CScope {
    var includeGuards: Option<CIncludeGuards>
    var snippets: seq<CSnippet>

    /** The default scope: no guards, no snippets. */
    constructor ()
      ensures includeGuards == None && snippets == []
    {
      includeGuards := None;
      snippets := [];
    }

    /** Sets the guards, replacing any earlier ones. */
    method WithIncludeGuards(guards: CIncludeGuards)
      modifies this
      ensures includeGuards == Some(guards) && snippets == old(snippets)
    {
      includeGuards := Some(guards);
    }

    method IncludeLib(libname: string)
      modifies this
      ensures snippets == old(snippets) + [LibInclude(libname)] && includeGuards == old(includeGuards)
    {
      snippets := snippets + [LibInclude(libname)];
    }

    method IncludeFile(filename: string)
      modifies this
      ensures snippets == old(snippets) + [FileInclude(filename)] && includeGuards == old(includeGuards)
    {
      snippets := snippets + [FileInclude(filename)];
    }

    method AddSnippet(snippet: CSnippet)
      modifies this
      ensures snippets == old(snippets) + [snippet] && includeGuards == old(includeGuards)
    {
      snippets := snippets + [snippet];
    }

    method AddStruct(inst: CStruct)
      modifies this
      ensures snippets == old(snippets) + [Struct(inst)] && includeGuards == old(includeGuards)
    {
      snippets := snippets + [Struct(inst)];
    }

    method AddEnum(inst: CEnum)
      modifies this
      ensures snippets == old(snippets) + [Enum(inst)] && includeGuards == old(includeGuards)
    {
      snippets := snippets + [Enum(inst)];
    }

    method AddRaw(inst: string)
      modifies this
      ensures snippets == old(snippets) + [Raw(inst)] && includeGuards == old(includeGuards)
    {
      snippets := snippets + [Raw(inst)];
    }

    method AddLibInclude(libname: string)
      modifies this
      ensures snippets == old(snippets) + [LibInclude(libname)] && includeGuards == old(includeGuards)
    {
      snippets := snippets + [LibInclude(libname)];
    }

    method AddFileInclude(filename: string)
      modifies this
      ensures snippets == old(snippets) + [FileInclude(filename)] && includeGuards == old(includeGuards)
    {
      snippets := snippets + [FileInclude(filename)];
    }

    /** Writes the opening guard lines, then the closing guard line, and
        none of the snippets. */
    method Render() returns (out: string)
      ensures out == ScopeText(includeGuards, snippets)
      ensures includeGuards == None ==> out == ""
      ensures includeGuards == Some(PragmaOnce) ==> out == "#pragma once\n"
      ensures includeGuards.Some? && includeGuards.value.String? ==>
        var s := includeGuards.value.symbol;
        out == "#ifndef " + s + "\n#define " + s + "\n#endif /* " + s + " */\n"
    {
      out := OpeningGuard(includeGuards);
      out := out + ClosingGuard(includeGuards);
      GuardTable(includeGuards, snippets);
    }
  }

  /** What each choice of guards writes. */
  lemma GuardTable(g: Option<CIncludeGuards>, snippets: seq<CSnippet>)
    ensures g == None ==> ScopeText(g, snippets) == ""
    ensures g == Some(PragmaOnce) ==> ScopeText(g, snippets) == "#pragma once\n"
    ensures g.Some? && g.value.String? ==>
      ScopeText(g, snippets) == "#ifndef " + g.value.symbol + "\n#define " + g.value.symbol + "\n#endif /* " + g.value.symbol + " */\n"
  {
    if g.Some? && g.value.String? {
      var s := g.value.symbol;
      assert ScopeText(g, snippets) == "#ifndef " + s + "\n" + "#define " + s + "\n" + ("#endif /* " + s + " */\n");
    }
  }

  /** The snippets have no effect on the text: two scopes with the same
      guards render the same, whatever they hold. */
  lemma SnippetsNotWritten(g: Option<CIncludeGuards>, a: seq<CSnippet>, b: seq<CSnippet>)
    ensures ScopeText(g, a) == ScopeText(g, b)
    ensures ScopeText(g, a + b) == ScopeText(g, [])
  {
  }

  /** Guards are written as whole lines: the text is empty or ends with a
      newline, and holds one line for `#pragma once` and three for a
      newline-free string guard. */
  lemma GuardLines(g: Option<CIncludeGuards>, snippets: seq<CSnippet>)
    requires g.Some? && g.value.String? ==> '\n' !in g.value.symbol
    ensures var t := ScopeText(g, snippets); t == "" || t[|t| - 1] == '\n'
    ensures Count('\n', ScopeText(g, snippets)) == if g == None then 0 else if g.value.PragmaOnce? then 1 else 3
  {
    var t := ScopeText(g, snippets);
    if g == None {
      CountZero('\n', t);
    } else if g.value.PragmaOnce? {
      var l := "#pragma once";
      assert t == l + "\n";
      CountZero('\n', l);
      CountConcat('\n', l, "\n");
    } else {
      StringGuardLines(g.value.symbol, snippets);
    }
  }

  lemma StringGuardLines(s: string, snippets: seq<CSnippet>)
    requires '\n' !in s
    ensures var t := ScopeText(Some(String(s)), snippets); |t| > 0 && t[|t| - 1] == '\n'
    ensures Count('\n', ScopeText(Some(String(s)), snippets)) == 3
  {
    var l1, l2, l3 := "#ifndef " + s, "#define " + s, "#endif /* " + s + " */";
    assert ScopeText(Some(String(s)), snippets) == (l1 + "\n") + (l2 + "\n") + (l3 + "\n");
    LineCount(l1);
    LineCount(l2);
    LineCount(l3);
    CountConcat('\n', (l1 + "\n") + (l2 + "\n"), l3 + "\n");
    CountConcat('\n', l1 + "\n", l2 + "\n");
  }

  lemma LineCount(l: string)
    requires '\n' !in l
    ensures Count('\n', l + "\n") == 1
  {
    CountZero('\n', l);
    CountConcat('\n', l, "\n");
  }

  /** A header with `#pragma once`, two includes and raw text renders as
      the guard line alone. */
  method PragmaOnceExample() returns (out: string)
    ensures out == "#pragma once\n"
  {
    var scope := new CScope();
    scope.WithIncludeGuards(PragmaOnce);
    scope.IncludeLib("stdio.h");
    scope.IncludeFile("myheader.h");
    scope.AddRaw("int x;");
    out := scope.Render();
  }

  /** A string guard renders its three lines and nothing between them. */
  method StringGuardExample() returns (out: string)
    ensures out == "#ifndef FOO_H\n" + "#define FOO_H\n" + "#endif /* FOO_H */\n"
  {
    var scope := new CScope();
    scope.WithIncludeGuards(String("FOO_H"));
    scope.AddEnum(CEnum.New("color").Member("RED", None));
    out := scope.Render();
    StringGuardText(scope.snippets);
  }

  lemma StringGuardText(snippets: seq<CSnippet>)
    ensures ScopeText(Some(String("FOO_H")), snippets) == "#ifndef FOO_H\n" + "#define FOO_H\n" + "#endif /* FOO_H */\n"
  {
    assert OpeningGuard(Some(String("FOO_H"))) == "#ifndef FOO_H\n" + "#define FOO_H\n";
    assert ClosingGuard(Some(String("FOO_H"))) == "#endif /* FOO_H */\n";
  }
}
