# c-codegen in Dafny

c-codegen is a small Rust library that builds C source text from builder
values. This project models its core in Dafny and proves properties of
that model. The core covers:

- the scope of a C file with its include guards and snippets (`CScope`);
- struct and enum definitions with their typedef variants;
- variable definitions;
- function declarations and function implementations;
- the member/argument declarator `CTypeDecl`;
- the small value types these share.

Every `Display` implementation is modelled as a renderer that returns the
text it would write. A renderer that loops is an imperative `method`. Each
such method is proved equal to a text function (`StructText`, `EnumText`,
`FnDeclText`). The properties are then proved as lemmas about those
functions.

Modules follow the crate's files:

- `Base`: `Option`, the decimal text of integers, character counting, and
  generic concatenation and join functions.
- `Lib` (`src/lib.rs`, first part): `CStorageClass`, `CArraySize`,
  `CTypedefKind` and `CTypeDecl`, plus the typedef header and footer that
  structs and enums share.
- `CVars` (`src/c_var.rs`): `CVarDecl` and `CVar`.
- `Structs` (`src/c_struct.rs`): the `CStruct` class.
- `Enums` (`src/c_enum.rs`): `CEnum`.
- `Fns` (`src/c_fn.rs`): `CFnDecl` and `CFnImpl`.
- `Scope` (`src/lib.rs`, second part): `CIncludeGuards`, `CSnippet`, the
  crate root's variable record and the `CScope` class.

`src/lib.rs` is split in two because `CSnippet` holds structs, enums and
functions, and those depend on `CTypeDecl`.

How entities are modelled:

- `CScope` and `CStruct` have `&mut self` methods, so they are classes
  whose methods modify their fields. Their consuming builders, such as
  `with_include_guards` or `as_typedef`, are methods on the same object.
- The other entities only have consuming builders (`fn f(mut self) -> Self`),
  so they are datatypes. Their builders are functions that return the
  updated value.

Behaviour modelled as the code is written, where it differs from what the
type names, method names and doc comments suggest:

- Rendering a `CScope` writes only its include guards. `#pragma once`
  becomes one line. A string guard becomes `#ifndef`/`#define` and the
  closing `#endif /* s */`. The snippets are collected but never written.
  In particular, the doc comments of `include_lib` and `include_file`
  (src/lib.rs:20 and src/lib.rs:26) describe `#include <stdio.h>` and
  `#include "myheader.h"` lines, and the renderer never writes them.
- A function declaration is written `ret name (`, with a space before the
  parenthesis. Each argument is a member declarator that carries its own
  `;`, and arguments are joined by a bare `,`: `int f (int a;,int b;)`.
- The renderer for an argument list computes `len() - 1` on an unsigned
  length. It does so only inside the loop, where the length is at least
  one, so it never wraps.
- `CFnDecl` has no inline flag, and `CFnImpl` has no renderer.
- src/c_var.rs is not a module of the crate: src/lib.rs:1-6 declares only
  `c_struct`, `c_enum` and `c_fn`. The file also formats a `CArraySize`
  with `{}` (src/c_var.rs:105), and `CArraySize` has no `Display`
  (src/lib.rs:173-177). The file is modelled as written, with the array
  suffix as `[n]` or `[]`. That is the text of src/lib.rs:222-223 and the
  text the file's own test expects (src/c_var.rs:117).

## Model

| member | source | states |
|---|---|---|
| Lib.CStorageClass.Render | src/lib.rs:164-171 | the text is `extern` exactly for `Extern` and `static` exactly for `Static` |
| Lib.CTypeDecl.New | src/lib.rs:187-194 | a fresh declarator has the given type and name, is not const, and has no array qualifier |
| Lib.CTypeDecl.Const | src/lib.rs:196-199 | sets const and keeps name, type and array qualifier |
| Lib.CTypeDecl.SizedArray | src/lib.rs:201-204 | sets the sized array qualifier and keeps the other fields |
| Lib.CTypeDecl.UnsizedArray | src/lib.rs:206-209 | sets the unsized array qualifier and keeps the other fields |
| Lib.CTypeDecl.Render | src/lib.rs:212-231 | the declarator text; its shape is stated by `TypeDeclShape`, its final `;` by `TypeDeclEndsWithSemicolon`, the characters it can hold by `TypeDeclAvoids` |
| Lib.TypedefHeader | src/c_struct.rs:35-43 | the first line of a struct or enum; its four cases are stated by `TypedefTable`, its single final newline by `HeaderFooterEnds` and `HeaderNewlines` |
| Lib.TypedefFooter | src/c_struct.rs:49-57 | the last line of a struct or enum; its cases are stated by `TypedefTable`, its `}` ... `;` shape by `HeaderFooterEnds`, its lack of a newline by `FooterNewlines` |
| Base.NatToDecimal | src/lib.rs:222 | the `{}` text of an array size: at least one digit, all digits, no leading zero unless the size is 0; read back by `NatDecimalRoundTrip` |
| Lib.StoragePrefixTable | src/lib.rs:164-171 | the storage prefix is nothing, `extern ` or `static ` |
| Lib.ArraySuffixTable | src/lib.rs:220-227 | the array part is `[n]` for sized, `[]` for unsized, and empty exactly when there is no qualifier |
| Lib.TypeDeclShape | src/lib.rs:212-231 | the declarator text is the const prefix, type, space, name, array part and `;`, in this order |
| Lib.NewTypeDeclRender | src/lib.rs:186-194 | a fresh declarator renders as `type name;` |
| Lib.TypeDeclEndsWithSemicolon | src/lib.rs:220-227 | every declarator text ends in `;`, on every branch |
| Lib.ConstIdempotent | src/lib.rs:196-199 | calling `const_` twice equals calling it once |
| Lib.ArrayLastWins | src/lib.rs:201-209 | the last array builder wins, and `const_` commutes with both array builders |
| Lib.TypeDeclAvoids | src/lib.rs:212-231 | a character absent from type and name, and not written by the renderer itself, is absent from the text |
| Lib.TypedefTable | src/c_struct.rs:35-57 | which header and footer each typedef kind selects, for any keyword |
| Lib.HeaderFooterEnds | src/c_struct.rs:35-57 | the header ends its line with a newline; the footer starts with `}` and ends with `;` |
| Lib.HeaderNewlines | src/c_struct.rs:35-43 | the header holds exactly one newline when keyword and name hold none |
| Lib.FooterNewlines | src/c_struct.rs:49-57 | the footer holds no newline when name and alias hold none |
| Base.NatDecimalRoundTrip | src/lib.rs:222 | the decimal text of an array size reads back as the same size |
| Base.IntDecimalRoundTrip | src/c_enum.rs:43 | the signed decimal text of an enum value reads back as the same value |
| Base.IntToDecimalInjective | src/c_enum.rs:43 | distinct enum values get distinct texts |
| Base.IntToDecimal | src/c_enum.rs:43 | the text starts with `-` exactly for negative values and is otherwise all digits |
| Base.DecimalHasOnly | src/c_enum.rs:43 | a decimal text holds only digits and `-` |
| CVars.CVarDecl.New | src/c_var.rs:60-67 | the fresh inline declarator has the given type and name, is not const, and has no array |
| CVars.CVarDecl.FromPair | src/c_var.rs:85-94 | the pair conversion equals `new(pair.0, pair.1)`: the first element is the type |
| CVars.CVarDecl.Const | src/c_var.rs:69-72 | sets const and keeps the other fields |
| CVars.CVarDecl.SizedArray | src/c_var.rs:74-77 | sets the sized array and keeps the other fields |
| CVars.CVarDecl.UnsizedArray | src/c_var.rs:79-82 | sets the unsized array and keeps the other fields |
| CVars.CVar.From | src/c_var.rs:10-18 | the conversion keeps the declarator, with no storage and no initializer |
| CVars.CVar.Extern | src/c_var.rs:21-24 | sets extern storage and keeps declarator and initializer |
| CVars.CVar.Static | src/c_var.rs:25-28 | sets static storage and keeps declarator and initializer |
| CVars.CVar.Init | src/c_var.rs:29-32 | sets the initializer and keeps declarator and storage |
| CVars.CVarDecl.Render | src/c_var.rs:96-110 | the inline declarator text; its shape is stated by `VarDeclShape`, its relation to the member declarator by `DeclIsTypeDeclWithoutSemicolon` |
| CVars.CVar.Render | src/c_var.rs:35-46 | the variable definition text; its shape is stated by `VarShape`, its lack of `;` by `VarHasNoSemicolon` |
| CVars.VarDeclShape | src/c_var.rs:96-110 | the inline declarator is the const prefix, type, space, name and array part; it has no `;` unless type or name has one |
| CVars.VarShape | src/c_var.rs:35-46 | a variable is the storage prefix, the declarator and the optional ` = init`; `from` adds neither |
| CVars.DeclIsTypeDeclWithoutSemicolon | src/c_var.rs:96-110 | the inline declarator is the member declarator with the same fields, minus the final `;` |
| CVars.PairRender | src/c_var.rs:85-94 | a declarator made from a `(type, name)` pair renders `type name` and matches `CTypeDecl::new(type, name)` |
| CVars.BuildersLastWins | src/c_var.rs:20-33 | the last storage builder wins; `init` overwrites and commutes with storage |
| CVars.VarHasNoSemicolon | src/c_var.rs:35-46 | a variable definition has no `;` unless its type, name or initializer brings one |
| CVars.StaticConstArrayExample | src/c_var.rs:114-122 | the crate's variable test renders `static const uint8_t foo[2] = {0, 0}` |
| Structs.CStruct.constructor | src/c_struct.rs:10-16 | a new struct has the name, no typedef and no members |
| Structs.CStruct.AsTypedef | src/c_struct.rs:18-21 | sets the typedef kind and keeps name and members |
| Structs.CStruct.Member | src/c_struct.rs:23-26 | appends `CTypeDecl::new(ty, name)` after the existing members |
| Structs.CStruct.AddMember | src/c_struct.rs:28-30 | appends the given member after the existing members |
| Structs.CStruct.Render | src/c_struct.rs:33-59 | the loop writes exactly the header, one line per member in order, and the footer |
| Structs.MemberLine | src/c_struct.rs:46 | one indented member line; its newline count is stated by `MemberLineNewlines`, its place in the body by `MemberLineAt` |
| Structs.MemberLinesConcat | src/c_struct.rs:45-47 | the body of concatenated member lists is the concatenated bodies |
| Structs.MemberLineAt | src/c_struct.rs:45-47 | the k-th member owns the k-th body line |
| Structs.AddMemberText | src/c_struct.rs:28-30 | adding a member inserts exactly its line just before the footer |
| Structs.StructTypedefTable | src/c_struct.rs:35-57 | the header and footer for each of the four typedef cases |
| Structs.StructEndsWithSemicolon | src/c_struct.rs:51-56 | a struct ends with `;`, never with a newline |
| Structs.MemberLineNewlines | src/c_struct.rs:46 | a member line holds exactly one newline |
| Structs.MemberLinesNewlines | src/c_struct.rs:45-47 | the body holds one newline per member |
| Structs.StructNewlines | src/c_struct.rs:33-59 | with newline-free names a struct spans exactly members + 1 newlines |
| Structs.StructExample | src/c_struct.rs:63-83 | the crate's struct test, built with the same calls, renders the expected text |
| Enums.CEnum.New | src/c_enum.rs:11-17 | a new enum has the name, no typedef and no members |
| Enums.CEnum.AsTypedef | src/c_enum.rs:18-21 | sets the typedef kind and keeps name and members |
| Enums.CEnum.Member | src/c_enum.rs:23-26 | appends the (name, value) pair after the existing members |
| Enums.CEnum.Render | src/c_enum.rs:29-59 | the loop writes exactly the header, one line per member in order, and the footer |
| Enums.MemberAcceptsAnyValue | src/c_enum.rs:6-7 | values are not checked: a value not above the previous one is kept as given, in call order |
| Enums.EnumLine | src/c_enum.rs:42-46 | one member line, with or without ` = value`; its `,` and newline ending is stated by `EnumLineEndsWithComma`, its counts by `EnumLineCounts` |
| Enums.EnumLinesConcat | src/c_enum.rs:41-47 | the body of concatenated member lists is the concatenated bodies |
| Enums.MemberText | src/c_enum.rs:23-26 | `member` inserts exactly its line just before the footer |
| Enums.EnumLineEndsWithComma | src/c_enum.rs:42-46 | every member line ends with `,` and a newline, the last one included |
| Enums.EnumTypedefTable | src/c_enum.rs:31-57 | the header and footer for each of the four typedef cases |
| Enums.EnumLineCounts | src/c_enum.rs:42-46 | a member line with a plain name holds one comma and one newline |
| Enums.EnumLinesCounts | src/c_enum.rs:41-47 | the body holds one comma and one newline per member |
| Enums.EnumEndsWithSemicolon | src/c_enum.rs:49-57 | an enum ends with `;`, never with a newline |
| Enums.EnumNewlines | src/c_enum.rs:29-59 | with plain names an enum spans exactly members + 1 newlines |
| Enums.EnumExample | src/c_enum.rs:63-81 | the crate's enum test renders the expected text |
| Fns.CFnDecl.New | src/c_fn.rs:11-18 | a new declaration returns `void`, has no storage and no arguments |
| Fns.CFnDecl.Ret | src/c_fn.rs:20-23 | sets the return type and keeps the other fields |
| Fns.CFnDecl.Static | src/c_fn.rs:25-28 | sets static storage and keeps the other fields |
| Fns.CFnDecl.Extern | src/c_fn.rs:30-33 | sets extern storage and keeps the other fields |
| Fns.CFnDecl.Arg | src/c_fn.rs:35-38 | appends the argument after the existing ones |
| Fns.CFnDecl.Render | src/c_fn.rs:41-55 | the loop writes the storage prefix, `ret name (`, the arguments joined by `,`, and `)` |
| Fns.ArgStep | src/c_fn.rs:47-52 | one loop step extends the joined argument text by exactly one argument |
| Fns.BuildersLastWins | src/c_fn.rs:20-38 | the last storage builder wins, `ret` overwrites, and neither touches the arguments |
| Fns.ArgAppendsText | src/c_fn.rs:35-38 | `arg` appends its text, after a `,` when there were arguments before |
| Fns.ArgListConcat | src/c_fn.rs:47-52 | argument texts keep call order: two lists join as their texts with one `,` |
| Fns.TypeDeclCommas | src/lib.rs:212-231 | a declarator of comma-free type and name holds no comma |
| Fns.ArgListCommas | src/c_fn.rs:47-52 | n comma-free arguments are separated by exactly n - 1 commas, and the list ends with the last argument's `;` |
| Fns.NoArgsText | src/c_fn.rs:43-53 | without arguments the text is `[storage ]ret name ()` |
| Fns.NewText | src/c_fn.rs:11-18 | a fresh declaration renders `void name ()` |
| Fns.TwoArgsText | src/c_fn.rs:47-52 | two arguments render as `a;,b;` between the parentheses |
| Fns.FnDeclExample | src/c_fn.rs:41-55 | a static two-argument declaration renders `static int add (int a;,const int b[];)` |
| Fns.CFnImpl.New | src/c_fn.rs:63-68 | a new implementation has the fresh declaration of that name and no body lines |
| Fns.CFnImpl.From | src/c_fn.rs:76-83 | the conversion keeps the declaration and has no body lines |
| Fns.CFnImpl.AddLine | src/c_fn.rs:70-73 | appends the line to the body and keeps the declaration |
| Fns.ImplBuilders | src/c_fn.rs:62-83 | `new(name)` equals the conversion of `CFnDecl::new(name)`; body lines keep call order |
| Scope.CScope.constructor | src/lib.rs:8-12 | the default scope has no guards and no snippets |
| Scope.CScope.WithIncludeGuards | src/lib.rs:15-18 | sets the guards, replacing earlier ones, and keeps the snippets |
| Scope.CScope.IncludeLib | src/lib.rs:21-24 | appends a library include |
| Scope.CScope.IncludeFile | src/lib.rs:27-30 | appends a file include |
| Scope.CScope.AddSnippet | src/lib.rs:49-51 | appends the snippet |
| Scope.CScope.AddStruct | src/lib.rs:53-55 | appends a struct snippet |
| Scope.CScope.AddEnum | src/lib.rs:57-59 | appends an enum snippet |
| Scope.CScope.AddRaw | src/lib.rs:61-63 | appends a raw snippet |
| Scope.CScope.AddLibInclude | src/lib.rs:65-67 | appends a library include |
| Scope.CScope.AddFileInclude | src/lib.rs:69-71 | appends a file include |
| Scope.OpeningGuard | src/lib.rs:76-84 | the guard lines written first; their cases are stated by `GuardTable`, their line count by `GuardLines` |
| Scope.ClosingGuard | src/lib.rs:86-90 | the `#endif` line written last, for a string guard only; stated by `GuardTable` |
| Scope.CScope.Render | src/lib.rs:74-93 | writes nothing without guards, `#pragma once` alone, or the `#ifndef`/`#define`/`#endif` lines of a string guard, and none of the snippets |
| Scope.GuardTable | src/lib.rs:76-90 | no guard writes nothing; `#pragma once` writes one line; a string guard writes `#ifndef`, `#define` and `#endif /* s */` lines |
| Scope.SnippetsNotWritten | src/lib.rs:74-93 | the text does not depend on the snippets |
| Scope.GuardLines | src/lib.rs:76-90 | the text is empty or ends with a newline, and holds 0, 1 or 3 lines by guard kind |
| Scope.StringGuardLines | src/lib.rs:79-89 | a string guard with a newline-free symbol writes exactly three lines |
| Scope.PragmaOnceExample | src/lib.rs:74-93 | a `#pragma once` scope with includes and raw text renders `#pragma once` and a newline only |
| Scope.StringGuardExample | src/lib.rs:74-93 | a string-guarded scope holding an enum renders only its three guard lines |

## Left out

- The `Formatter` and `fmt::Result` plumbing: every writer is modelled as
  text that is returned, and write errors are not modelled.
- `impl Into<String>` arguments are plain strings.
- The derived traits (`Debug`, `Clone`, `PartialEq`, `Hash`, `Default`)
  are not modelled; `Default` becomes the `CScope` constructor.
- `separate_includes` is commented out in the source and is not modelled.
- `CTypedefKind::explicit` is the `Explicit` constructor itself.
- `CArraySize` has no `Display` (src/lib.rs:173-177), so src/c_var.rs:105
  does not compile as written; the model writes the `[n]`/`[]` text that
  `CTypeDecl` writes.
- Lib.CTypeDecl.SizedArray: the array size is a `nat`, not a 64-bit
  `usize`, because the text of a size does not depend on its width.
- Enums.CEnum.Member: the value is an `int`, not a 128-bit `i128`, because
  the text of a value does not depend on its width.
- The `CScope` builders that consume `self` are modelled as methods that
  update the same object.
- Scope.CScope.AddStruct: the snippet stores a reference to the struct
  object, whereas the source moves the struct in. Later changes through an
  alias are therefore not excluded. Nothing is rendered from the snippet,
  so nothing proved depends on it.
- The crate root's variable record has no operations in the source. It is
  modelled only as the datatype carried by a global-variable snippet.
