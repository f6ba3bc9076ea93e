# vcc core, modelled in Dafny

vcc compiles a small subset of C to 32-bit x86 assembly in AT&T syntax. It
has four stages: a lexer, a recursive-descent parser, an optional type
checker, and a code generator. This project models the following parts.

- **The x86 code generator** (`codegen.hpp`) is the main subject.
  - The abstract syntax tree has one closed datatype per precedence level
    (`Ast`). Emitted code is a sequence of abstract instructions (`Asm`),
    with a renderer back to the assembly text.
  - Expressions (`CodegenExpr`) and statements, declarations, functions and
    programs (`Codegen`) are functions. They thread the label counter and
    read the function registry.
  - The imperative driver is the class `Generator.Generator`. Its fields
    are the two globals `global_counter` and `global_functions`. Its
    methods carry the loops of the source and are proved equal to the
    functions.
  - The main theorem is `StmtWalk.ProgramWalks`. It says that the code of
    every program the generator accepts passes a stack-and-label checker
    (`StackCheck`). The checker follows the depth of `%esp` below `%ebp`
    through every instruction and every jump, and records the depth each
    label is reached at. So the proof shows that:
    - every expression template pops exactly what it pushes;
    - every block, `break`, `continue` and call releases exactly what was
      allocated;
    - every path that leaves a function leaves from a restored frame;
    - every label jumped to is defined exactly once.
  - `CodegenFacts` states the declaration, scope, call and redeclaration
    rules directly on the functions.
- **The type checker** (`typechecker.hpp`) is modelled in `Typecheck` and
  `TypecheckFacts`. It is a validator over the same tree. Its global
  `ast_functions` is the field of a class `Typecheck.Checker`.
- **The two parsers** share the grammar `int IDENT ( ) { return UNOP* INT ; }`.
  - The class parser (`parser.hpp`) is modelled in `Parser`, the
    free-function parser (`parser_struct.hpp`) in `ParserStruct`.
  - Both consume a token list in place. `Grammar` gives the functions both
    are proved against, parameterised by how `std::stoi` is called
    (`Conversion`).
  - Their `jsonify` output is modelled in `JsonTree`.
- **The lexer's driver loop** (`lexer.hpp`) is the method `Lexer.Lex`. It
  takes the regular-expression table as a predicate `anyMatch` that tells
  whether any pattern matches in full.

The code behaves as follows, which is easy to misread:

- Call arguments are generated and pushed from the rightmost one
  (codegen.hpp:843-852). They are not evaluated left to right.
- The redeclaration checks for variables (codegen.hpp:216-218) and for
  functions (codegen.hpp:132-146) are made by the code generator. The
  parsers do not check them.
- A second definition of a function is accepted when a prototype comes
  between the two definitions (codegen.hpp:132-147; see Findings).
- The parsers read `tokens.front()` without checking for an empty list
  (parser.hpp:17, parser_struct.hpp:38). The model reports that case as
  `EndOfInput`.
- The lexer does not emit maximal matches (lexer.hpp:103-115). When
  `candidate + c` matches, it emits the candidate without `c`.

## Model

| member | source | states |
|---|---|---|
| Codegen.GenStatement | codegen.hpp:235-415 | Generating a statement never moves the label counter backwards, so the ids taken by `if`, `for`, `while` and `do` are fresh. The statement gets the symbol table and slot index by value and hands back no frame. Its stack behaviour is stated by `StmtWalk.StatementWalks`. |
| Codegen.GenLoop | codegen.hpp:265-361 | The loop after its header never moves the label counter backwards. Its stack behaviour is stated by `StmtWalk.LoopWalks`. |
| Codegen.GenCompoundFrom | codegen.hpp:393-405 | The items of a block allocate one four-byte slot below the entry index per name they add to the scope. The counter never moves backwards. |
| Codegen.GenBlockItem | codegen.hpp:182-193 | A statement item leaves the frame unchanged. A declaration item allocates one slot per new name. |
| Codegen.GenDeclList | codegen.hpp:195-209 | A declaration list adds exactly one name to the scope per declaration. |
| Codegen.GenDeclsFrom | codegen.hpp:195-209 | The declarations from the i-th on add exactly one scope name each. |
| Codegen.GenDeclaration | codegen.hpp:211-233 | A name already in the current scope is rejected. Otherwise the name is bound to the current slot and the index drops by 4 before the initialiser is generated. |
| Codegen.BindExtends | codegen.hpp:219-221 | Binding a fresh name allocates one new slot, distinct from every other slot, below the old index. |
| Codegen.ExtendsTrans | codegen.hpp:397-399 | Allocation across successive declarations composes. |
| Codegen.CompoundExtends | codegen.hpp:393-405 | After the items of a block, every slot of the block lies between the old and new index, and the slots are pairwise distinct. |
| Codegen.BlockItemExtends | codegen.hpp:182-193 | The same for one block item. |
| Codegen.DeclsExtends | codegen.hpp:195-209 | The same for a declaration list. |
| Codegen.GenFunction | codegen.hpp:125-180 | A function is registered under its name, replacing the earlier entry, before its body is generated. The counter never moves backwards. |
| Codegen.GenFunctionsFrom | codegen.hpp:115-123 | Compiling the functions in order never moves the counter backwards. |
| Codegen.Redeclaration | codegen.hpp:132-146 | (no contract; specified by `Generator.Generator.CheckRedeclaration` and `CodegenFacts.RedefinitionAccepted`) A definition after a definition, a different parameter count or a different parameter type is rejected. |
| Codegen.GenProgram | codegen.hpp:115-123 | (no contract; specified by `StmtWalk.ProgramWalks` and `CodegenFacts.CheckedProgram`) The functions are compiled in order from an empty registry and counter 0. |
| CodegenExpr.GenComma | codegen.hpp:417-427 | A comma expression never moves the counter backwards. Its stack behaviour is stated by `ExprWalk.CommaWalks`. |
| CodegenExpr.GenAssignment | codegen.hpp:429-452 | An assignment never moves the counter backwards. Its error on an undeclared target is stated by `CodegenFacts.UndeclaredNames`. |
| CodegenExpr.GenConditional | codegen.hpp:454-480 | A ternary never moves the counter backwards. Its stack behaviour is stated by `ExprWalk.ConditionalWalks`. |
| CodegenExpr.GenLogicOr | codegen.hpp:482-505 | The `\|\|` fold never moves the counter backwards. |
| CodegenExpr.GenLogicAnd | codegen.hpp:507-533 | The `&&` fold never moves the counter backwards. |
| CodegenExpr.GenBitOr | codegen.hpp:535-556 | The `\|` fold never moves the counter backwards. |
| CodegenExpr.GenBitXor | codegen.hpp:558-579 | The `^` fold never moves the counter backwards. |
| CodegenExpr.GenBitAnd | codegen.hpp:581-602 | The `&` fold never moves the counter backwards. |
| CodegenExpr.GenEquality | codegen.hpp:604-627 | The equality fold never moves the counter backwards. |
| CodegenExpr.GenRelational | codegen.hpp:629-652 | The relational fold never moves the counter backwards. |
| CodegenExpr.GenShift | codegen.hpp:654-688 | The shift fold never moves the counter backwards. |
| CodegenExpr.GenAdditive | codegen.hpp:690-724 | The additive fold never moves the counter backwards. |
| CodegenExpr.GenMult | codegen.hpp:726-768 | The multiplicative fold never moves the counter backwards. |
| CodegenExpr.GenUnary | codegen.hpp:770-797 | Unary expressions never move the counter backwards. |
| CodegenExpr.GenPostfix | codegen.hpp:799-863 | Postfix expressions and primaries never move the counter backwards. |
| CodegenExpr.GenCallArgs | codegen.hpp:841-852 | Pushing the arguments never moves the counter backwards. |
| CodegenFacts.ArgumentsRightToLeft | codegen.hpp:843-852 | The first k arguments are generated and pushed in reverse order: from argument k-1 down to argument 0, each one's code followed by `pushl %eax`. |
| CodegenFacts.CallCode | codegen.hpp:828-862 | The code of a call is every argument from the last to the first, each pushed, then `call`, then `addl` of four bytes per argument when there are any. |
| CodegenFacts.ParamKeys | codegen.hpp:153-162 | The parameter symbol table binds exactly the parameter names. |
| CodegenFacts.ParamSlot | codegen.hpp:153-162 | Parameter i is at offset 8 + 4·i unless a later parameter reuses its name. |
| CodegenFacts.ParamRedeclared | codegen.hpp:153-218 | Parameters share the body's outermost scope, so a body whose first declaration reuses a parameter name is rejected with "already declared". |
| CodegenFacts.DeclsFresh | codegen.hpp:195-218 | No declaration of an accepted list, at any position, names something that was in scope before the list. |
| CodegenFacts.ItemsFresh | codegen.hpp:393-405 | No top-level declaration of the accepted items of a block, at any item and any position, names something in scope before the block. |
| CodegenFacts.ParamsNeverRedeclared | codegen.hpp:153-218 | No top-level declaration of an accepted function body, at any item and any position, reuses a parameter name. |
| CodegenFacts.FunctionShape | codegen.hpp:147-179 | A prototype emits nothing and leaves the counter alone. A definition is its prologue, its body and the fall-through `return 0`. |
| CodegenFacts.LoopExitCode | codegen.hpp:362-392 | `break` and `continue` are errors outside a loop. Inside one, `addl` releases exactly `loop_index - stack_index` bytes, and only when that is positive. Then comes a jump to the innermost loop's `_end` or `_cont`. |
| CodegenFacts.UndeclaredNames | codegen.hpp:433-824 | An undeclared assignment target, variable read or prefix `++`/`--` is rejected, each with its own error. A postfix `++`/`--` is not checked and uses offset 0. |
| CodegenFacts.CallArity | codegen.hpp:828-863 | A registered callee given too many or too few arguments is rejected, and an unregistered one is allowed. The code ends with `call` and, when there are n > 0 arguments, `addl $4n, %esp`. |
| CodegenFacts.AcceptedSignature | codegen.hpp:132-146 | A redeclaration that passes the checks has the registered parameter count and types. |
| CodegenFacts.FunctionsConsistent | codegen.hpp:115-147 | After compiling a run of functions, each of them is registered with its own signature. |
| CodegenFacts.KeptSignature | codegen.hpp:132-147 | A registered signature survives the rest of the program. |
| CodegenFacts.ProgramSignatures | codegen.hpp:115-147 | In a compiled program, all declarations of one name agree on their parameter count and types. |
| CodegenFacts.RedefinitionAccepted | codegen.hpp:132-147 | As written, `int f() {} int f(); int f() {}` compiles and emits `_f:` twice. |
| CodegenFacts.GenFunctionsChecked | codegen.hpp:132-135 | The generator with a record of the names defined so far agrees with the generator as written on everything it accepts. |
| CodegenFacts.CheckedDefinesOnce | codegen.hpp:132-135 | The corrected generator never accepts two definitions of one name, nor a definition of a name already defined. |
| CodegenFacts.CheckedProgram | codegen.hpp:115-147 | On every program it accepts, the corrected generator produces the code of the generator as written, and no function is defined twice. |
| CodegenFacts.DefinedOnceAccepted | codegen.hpp:115-147 | From the i-th function on, when the generator as written succeeds and no name is defined twice or already defined, the corrected generator gives the same result. |
| CodegenFacts.ProgramDefinedOnce | codegen.hpp:115-147 | A program the generator as written accepts, with no name defined twice, gets the same result from the corrected generator. |
| CodegenFacts.RedefinitionRejected | codegen.hpp:132-135 | The corrected generator rejects `int f() {} int f(); int f() {}` with "multiple definitions". |
| StackCheck.WalkAppend | codegen.hpp:115-123 | Checking concatenated code is checking the first piece, then the second. |
| StackCheck.WalkDefinesOnce | codegen.hpp:254-261 | Code that passes the checker defines each label at most once. The labels it defines are exactly those added to the checker's set. |
| StackCheck.WalkPlain | codegen.hpp:11-58 | Code that touches neither `%esp` nor a label leaves the checker's state unchanged. This is the checker fact the label-free operator templates of these tables rely on. |
| ExprWalk.TailWalk | codegen.hpp:690-768 | The tail of every binary template pops exactly the one word pushed before the second operand. |
| ExprWalk.OperandWalks | codegen.hpp:535-768 | Each further operand of a binary level is a balanced push/pop pair. |
| ExprWalk.BranchWalk | codegen.hpp:243-264 | The two-way branch of `if` and `?:` reaches its `_end` label at the depth both arms end at. It defines only `_e<id>` and `_end<id>`. |
| ExprWalk.CommaWalks | codegen.hpp:417-427 | A comma expression's code leaves the stack depth unchanged and defines only labels numbered in its own counter range. |
| ExprWalk.AssignmentWalks | codegen.hpp:429-452 | The same for assignments. |
| ExprWalk.ConditionalWalks | codegen.hpp:454-480 | The same for `?:`. |
| ExprWalk.LogicOrWalks | codegen.hpp:482-505 | The same for `\|\|`. |
| ExprWalk.LogicAndWalks | codegen.hpp:507-533 | The same for `&&`. |
| ExprWalk.BitOrWalks | codegen.hpp:535-556 | The same for `\|`. |
| ExprWalk.BitXorWalks | codegen.hpp:558-579 | The same for `^`. |
| ExprWalk.BitAndWalks | codegen.hpp:581-602 | The same for `&`. |
| ExprWalk.EqualityWalks | codegen.hpp:604-627 | The same for `==` and `!=`. |
| ExprWalk.RelationalWalks | codegen.hpp:629-652 | The same for `<`, `>`, `<=` and `>=`. |
| ExprWalk.ShiftWalks | codegen.hpp:654-688 | The same for `<<` and `>>`. |
| ExprWalk.AdditiveWalks | codegen.hpp:690-724 | The same for `+` and `-`. |
| ExprWalk.MultWalks | codegen.hpp:726-768 | The same for `*`, `/` and `%`. |
| ExprWalk.UnaryWalks | codegen.hpp:770-797 | The same for unary expressions. |
| ExprWalk.PostfixWalks | codegen.hpp:799-863 | The same for postfix expressions, constants, variables and calls. |
| ExprWalk.CallSequenceWalks | codegen.hpp:837-862 | After the call, the caller removes exactly the arguments it pushed. |
| ExprWalk.CallArgsWalk | codegen.hpp:841-852 | Pushing k arguments moves the stack down by exactly 4·k bytes. |
| StmtWalk.StatementWalks | codegen.hpp:235-415 | Every statement's code ends at the depth of its slot index, or in dead code after a jump or return. Each `break`/`continue` reaches its loop's exit at the depth the loop was entered at. |
| StmtWalk.ReturnWalks | codegen.hpp:406-415 | `return` restores `%esp` from `%ebp` and leaves in dead code. |
| StmtWalk.ExitWalks | codegen.hpp:362-392 | `break` and `continue` jump from the depth their loop was entered at. |
| StmtWalk.IfWalks | codegen.hpp:243-264 | `if` ends at the depth it started at. |
| StmtWalk.CompoundWalks | codegen.hpp:393-405 | A block's closing `addl` releases exactly what its declarations allocated. |
| StmtWalk.BlockItemWalks | codegen.hpp:182-193 | A block item ends at the depth of the frame it hands on. |
| StmtWalk.DeclarationWalks | codegen.hpp:211-233 | A declaration moves the stack down by exactly the one slot it binds, with or without an initialiser. |
| StmtWalk.LoopWalks | codegen.hpp:265-340 | A `while` or `for` loop ends at its entry depth or in dead code. Its test, body, `_cont` and post expression agree on the depth at `_cond`, `_cont` and `_end`. |
| StmtWalk.WhileWalks | codegen.hpp:312-340 | The same for `while`. |
| StmtWalk.ForExprWalks | codegen.hpp:265-311 | The same for `for` with an expression header. |
| StmtWalk.ForDeclWalks | codegen.hpp:265-311 | `for` with a declaration header releases its header's slots after `_end`. |
| StmtWalk.DoWalks | codegen.hpp:312-361 | The same for `do ... while`. |
| StmtWalk.FunctionWalks | codegen.hpp:125-180 | A function's code, from dead code, passes the checker and ends in dead code. Every path returns. |
| StmtWalk.FunctionsFromWalks | codegen.hpp:115-123 | The same for the functions of a program in order. |
| StmtWalk.ProgramWalks | codegen.hpp:8-123 | The code of every accepted program passes the checker and ends outside any function. Every label it jumps to is defined in it, and no label is defined twice. |
| Generator.Generator.CheckRedeclaration | codegen.hpp:132-146 | The checks against the registered declaration give exactly the error `Codegen.Redeclaration` gives (multiple definitions, conflicting parameter count, conflicting parameter types, in that order). |
| Generator.Generator.CompileItems | codegen.hpp:171-399 | The item loop produces what `GenCompoundFrom` does, and leaves the counter after it. |
| Generator.Generator.CompileFunction | codegen.hpp:125-180 | One function: registry and counter updated as `GenFunction` says, and its code returned. |
| Generator.Generator.Compile | codegen.hpp:115-123 | The program loop appends each function's code and agrees with `GenFunctionsFrom`. |
| Generator.BindParams | codegen.hpp:153-162 | The parameter loop binds parameter i to offset 8 + 4·i, with the scope holding exactly the parameter names and the index at -4. |
| Generator.CompileProgram | codegen.hpp:8-123 | A fresh generator accepts exactly the programs `GenProgram` accepts, with the same code or error. Its code passes the checker. |
| Typecheck.Compatible | typechecker.hpp:16-22 | The compatible type is one of the two arguments, and the one of lowest rank. |
| Typecheck.CheckDeclsFrom | typechecker.hpp:46-57 | Each declared name gets the list's type, and no other name changes. |
| Typecheck.CheckBlockItem | typechecker.hpp:38-44 | A statement item leaves the scope unchanged. |
| Typecheck.Checker.CheckDeclarations | typechecker.hpp:46-57 | The declaration loop binds each name before checking its initialiser, as `CheckDeclsFrom` says. |
| Typecheck.Checker.CheckBody | typechecker.hpp:31-36 | The function-body loop threads one scope through the items, as `CheckFunction` says. |
| Typecheck.Checker.CheckProgram | typechecker.hpp:24-29 | Functions are registered in program order, each before its body is checked, as `CheckFunctionsFrom` says. On success the registry is the old one with every function registered in order, the latest of each name winning. |
| Typecheck.RegisterAll | typechecker.hpp:24-29 | Registering a list of functions keeps the old names and adds exactly the names of the list. |
| TypecheckFacts.CompatibleRules | typechecker.hpp:16-22 | Equal types give that type. Distinct ranks make the rule symmetric. A rank tie between distinct types gives the second. |
| TypecheckFacts.LiftType | typechecker.hpp:109-155 | An expression made of one unary operand has the unary operand's type. |
| TypecheckFacts.AssignmentType | typechecker.hpp:111-113 | An assignment is accepted exactly when its value is, even when its target is undeclared. Its type is the value's or the target's, of rank at most both, and an undeclared target counts as the empty type name. |
| TypecheckFacts.TernaryType | typechecker.hpp:121-126 | A ternary is accepted exactly when its test and both branches are, and reports the first error in that order. Its type is one of the two branch types, of rank at most both. |
| TypecheckFacts.CommaLast | typechecker.hpp:97-101 | A comma expression has the type of its last assignment. |
| TypecheckFacts.LeafTypes | typechecker.hpp:94-366 | Integer constants are `int`, floating constants `float` and an omitted expression `void`. An undeclared variable or an unknown callee is an error. A call has its callee's return type. `~` needs `int`. |
| TypecheckFacts.SelfInitialised | typechecker.hpp:53-57 | A declared name is in scope in its own initialiser. |
| TypecheckFacts.BlockScopeEnds | typechecker.hpp:59-82 | A declaration inside a block is gone once the block ends. |
| TypecheckFacts.ParamsNotInScope | typechecker.hpp:31-36 | Parameters are not in the body's scope. |
| TypecheckFacts.CallOrder | typechecker.hpp:24-358 | A function may call only functions registered before it or itself. |
| TypecheckFacts.CheckedAgainstPrefix | typechecker.hpp:24-358 | From the i-th function on, the program checks exactly when each function checks against the registry of the functions up to and including itself. |
| TypecheckFacts.ProgramCallOrder | typechecker.hpp:24-358 | A program checks exactly when every function checks against the registry of itself and the functions before it. |
| Typecheck.TypeComma | typechecker.hpp:94-105 | (no contract; specified by `TypecheckFacts.CommaLast`) |
| Typecheck.TypeAssignment | typechecker.hpp:107-116 | (no contract; specified by `TypecheckFacts.AssignmentType` and `TypecheckFacts.LiftType`) |
| Typecheck.TypeConditional | typechecker.hpp:117-128 | (no contract; specified by `TypecheckFacts.TernaryType` and `TypecheckFacts.LiftType`) |
| Typecheck.TypeLogicOr | typechecker.hpp:130-142 | (no contract; specified by `TypecheckFacts.LogicOrOperands`) |
| Typecheck.TypeLogicAnd | typechecker.hpp:143-155 | (no contract; specified by `TypecheckFacts.LogicAndOperands`) |
| Typecheck.TypeBitOr | typechecker.hpp:156-172 | (no contract; specified by `TypecheckFacts.BitOrInts`) |
| Typecheck.TypeBitXor | typechecker.hpp:173-189 | (no contract; specified by `TypecheckFacts.BitXorInts`) |
| Typecheck.TypeBitAnd | typechecker.hpp:190-206 | (no contract; specified by `TypecheckFacts.BitAndInts`) |
| Typecheck.TypeEquality | typechecker.hpp:207-231 | (no contract; specified by `TypecheckFacts.EqualityInts`) |
| Typecheck.TypeRelational | typechecker.hpp:232-256 | (no contract; specified by `TypecheckFacts.RelationalInts`) |
| Typecheck.TypeShift | typechecker.hpp:257-281 | (no contract; specified by `TypecheckFacts.ShiftInts`) |
| Typecheck.TypeAdditive | typechecker.hpp:282-301 | (no contract; specified by `TypecheckFacts.AdditiveLowest`) |
| Typecheck.TypeMult | typechecker.hpp:302-321 | (no contract; specified by `TypecheckFacts.MultLowest`) |
| Typecheck.TypeUnary | typechecker.hpp:322-337 | (no contract; specified by `TypecheckFacts.LeafTypes` and `TypecheckFacts.LiftType`) |
| Typecheck.TypePostfix | typechecker.hpp:338-366 | (no contract; specified by `TypecheckFacts.LeafTypes`) |
| Typecheck.CheckStatement | typechecker.hpp:59-89 | (no contract; specified by `TypecheckFacts.BlockScopeEnds`) |
| Typecheck.CheckItemsFrom | typechecker.hpp:31-44 | (no contract; specified by `TypecheckFacts.BlockScopeEnds`) |
| Typecheck.CheckFunction | typechecker.hpp:31-36 | (no contract; specified by `TypecheckFacts.ParamsNotInScope`) |
| Typecheck.CheckFunctionsFrom | typechecker.hpp:24-29 | (no contract; specified by `TypecheckFacts.ProgramCallOrder`) |
| TypecheckFacts.LogicOrOperands | typechecker.hpp:130-142 | `\|\|` with several operands succeeds exactly when every operand does, and its type is never set. |
| TypecheckFacts.LogicAndOperands | typechecker.hpp:143-155 | `&&` with several operands succeeds exactly when every operand does, and its type is never set. |
| TypecheckFacts.BitOrInts | typechecker.hpp:156-172 | `\|` with several operands is `int`, and succeeds exactly when every operand is `int`. |
| TypecheckFacts.BitXorInts | typechecker.hpp:173-189 | The same for `^`. |
| TypecheckFacts.BitAndInts | typechecker.hpp:190-206 | The same for `&`. |
| TypecheckFacts.EqualityInts | typechecker.hpp:207-231 | The same for `==` and `!=`. |
| TypecheckFacts.RelationalInts | typechecker.hpp:232-256 | The same for the relational operators. |
| TypecheckFacts.ShiftInts | typechecker.hpp:257-281 | The same for the shifts. |
| TypecheckFacts.AdditiveLowest | typechecker.hpp:282-301 | The left fold of the compatible type over `+`/`-` operands gives the starting type or an operand's type, of rank at most all of them. |
| TypecheckFacts.MultLowest | typechecker.hpp:302-321 | The same for `*`, `/` and `%`. |
| Lexer.Step | lexer.hpp:91-124 | Each pass of the loop either consumes a character or empties a non-empty candidate, so the loop terminates. |
| Lexer.StepCovers | lexer.hpp:93-123 | One pass keeps the invariant: emitted tokens, then the candidate, then the unread non-whitespace, is unchanged. |
| Lexer.ScanCovers | lexer.hpp:91-124 | The emitted tokens followed by the pending candidate spell the non-whitespace characters of the input. |
| Lexer.ScanWellFormed | lexer.hpp:93-123 | No emitted token is empty or contains whitespace. |
| Lexer.SpaceSeparates | lexer.hpp:93-100 | Whitespace flushes the candidate and splits the input into two independent halves. |
| Lexer.PendingDiscarded | lexer.hpp:91-127 | A candidate still pending at the end of the input is dropped. The same text followed by a space is emitted. |
| Lexer.EveryCharMatches | lexer.hpp:103-115 | When every single character matches, each non-whitespace character is its own token. |
| Lexer.Lex | lexer.hpp:88-127 | The loop returns the tokens `Lexer.Tokens` gives. They are well formed, and together with the dropped candidate they spell the input without its whitespace. |
| Lexer.Scan | lexer.hpp:88-127 | (no contract; specified by `Lexer.ScanCovers` and `Lexer.ScanWellFormed`) The tokens the loop emits until the input runs out. |
| Lexer.Pending | lexer.hpp:124-127 | (no contract; specified by `Lexer.ScanCovers` and `Lexer.PendingDiscarded`) The candidate left when the input runs out. |
| Lexer.Tokens | lexer.hpp:88-127 | (no contract; specified by `Lexer.Lex` and `Lexer.ScanCovers`) The tokens of a whole input. |
| Conversion.Span | parser.hpp:41-48 | The digits read are the longest prefix of digits of the base. |
| Conversion.Convert | parser.hpp:41-48 | A conversion that succeeds gives a value in `[0, INT_MAX]`. |
| Conversion.DecimalRoundTrip | parser_struct.hpp:41 | Base 10 reads back the decimal digits of any n ≤ INT_MAX, whatever non-digit follows. |
| Conversion.DetectRoundTrip | parser.hpp:41-48 | Base detection reads back the decimal digits of any n ≤ INT_MAX. |
| Conversion.OctalDiffers | parser.hpp:41-48 | `017` is 15 with base detection and 17 in base 10. |
| Conversion.HexDiffers | parser_struct.hpp:41 | `0x1F` is 31 with base detection and 0 in base 10. |
| Conversion.OutOfRange | parser_struct.hpp:41 | `2147483648` is out of range and rejected. |
| Conversion.Stoi | parser.hpp:41-48 | A literal that converts gives a value in `[0, INT_MAX]`; base detection reads `0x` as hexadecimal and a leading `0` as octal, as `Conversion.OctalDiffers` and `Conversion.HexDiffers` show. |
| Grammar.Expect | parser.hpp:75-88 | A required token is popped exactly when it is at the front. Otherwise the result is its error, or end of input. |
| Grammar.UnaryOpOf | parser.hpp:16-23 | One token that fully matches `[!~-]` is consumed; anything else is an error. |
| Grammar.ExprOf | parser.hpp:40-54 | An expression with k operators consumes exactly k + 1 tokens from the front. |
| Grammar.StatementOf | parser.hpp:75-88 | `return`, the expression and `;` are consumed from the front. |
| Grammar.FunctionOf | parser.hpp:111-145 | A function consumes its nine fixed tokens plus its operators, from the front, and holds one statement. |
| Grammar.ExprParsed | parser.hpp:40-54 | What is accepted as an expression is operator tokens followed by a literal that converts to the leaf value. |
| Grammar.FunctionParsed | parser.hpp:111-145 | What is accepted as a function is `int`, an identifier, `(`, `)`, `{`, a statement and `}`. |
| Grammar.ProgramAccepts | parser.hpp:111-178 | A token list parses to p if and only if it spells p with a literal that converts to p's value. |
| Grammar.ProgramRoundTrip | parser.hpp:172-178 | Both parsers read a program back from its canonical tokens. |
| Grammar.TrailingRejected | parser.hpp:172-178 | Any token after the closing brace is rejected. |
| Grammar.ProgramOf | parser.hpp:172-178 | A parsed program holds exactly one function. |
| Grammar.BadLiteral | parser.hpp:41-48 | A literal that does not convert is reported with its spelling. |
| Grammar.OctalLiteral | parser_struct.hpp:41 | `int main ( ) { return 017 ; }` returns 15 under the class parser and 17 under the free-function parser. |
| Parser.UnaryOp | parser.hpp:16-23 | Pops the operator token as `UnaryOpOf` says. The rest of the list is a suffix of the input. |
| Parser.Expression | parser.hpp:40-54 | Pops the expression's tokens and returns the tree, as `ExprOf` with base detection says. |
| Parser.Statement | parser.hpp:75-88 | The same for statements. |
| Parser.Function | parser.hpp:111-145 | The same for functions. |
| Parser.Program | parser.hpp:172-178 | Returns `ProgramOf` with base detection and empties the list on success. |
| ParserStruct.ParseExpression | parser_struct.hpp:35-54 | Pops the expression's tokens and returns the tree, as `ExprOf` in base 10 says. |
| ParserStruct.ParseStatement | parser_struct.hpp:67-84 | The same for statements. |
| ParserStruct.ParseFunction | parser_struct.hpp:99-136 | The same for functions. |
| ParserStruct.ParseProgram | parser_struct.hpp:156-166 | Returns `ProgramOf` in base 10 and empties the list on success. |
| JsonTree.ExprJsonRoundTrip | parser.hpp:56-66 | The class parser's expression JSON, with operator names, decodes back to the tree. |
| JsonTree.FuncJsonRoundTrip | parser.hpp:147-164 | A one-statement function's JSON, with its entry `statement0`, decodes back to the function. |
| JsonTree.ProgJsonRoundTrip | parser.hpp:180-192 | A parsed program's JSON, with its entry `function0`, decodes back to the program. |
| JsonTree.NumberedKeys | parser.hpp:147-164 | A list is stored under the keys `prefix0` to `prefix(n-1)`, each holding its element, and under no other key. |
| JsonTree.ExprJsonForgets | parser_struct.hpp:56-65 | Without operator names, two expressions have equal JSON if and only if they agree once the operators are blanked out. |
| JsonTree.ExprJsonKeeps | parser.hpp:56-66 | With operator names, different expressions have different JSON. |
| JsonTree.NegationAndNot | parser_struct.hpp:56-65 | `-1` and `!1` are told apart by the class parser's JSON and not by the free-function parser's. |
| JsonTree.ExprJson | parser.hpp:56-66 | An expression's JSON is an object with a `type` entry. |
| JsonTree.StmtJson | parser.hpp:90-100 | (no contract; specified by `JsonTree.FuncJsonRoundTrip`) |
| JsonTree.FuncJson | parser.hpp:147-164 | (no contract; specified by `JsonTree.FuncJsonRoundTrip`) |
| JsonTree.ProgJson | parser.hpp:180-192 | (no contract; specified by `JsonTree.ProgJsonRoundTrip`) |
| Text.NatToString | codegen.hpp:801-806 | The decimal rendering of a literal is non-empty digits with no leading zero. |
| Asm.Render | codegen.hpp:163-177 | Every instruction renders as one non-empty text ending in a newline, as each template line does. |
| Asm.RenderAll | codegen.hpp:115-123 | (no contract; specified by `Asm.RenderAppend`) The text of a code sequence. |
| Asm.RenderAppend | codegen.hpp:115-123 | The text of concatenated code is the concatenation of the texts, so appending to `out` piece by piece renders the whole code. |

## Left out

- File I/O is not modelled. The lexer's input is a string, and the paths
  to the source file and `out.s` are not part of this model. The driver
  compiler.cpp is not part of this model either. It does not call the type
  checker. It prints the class parser's JSON, then writes the generated code.
- The regular-expression engine is not modelled. Only whether any pattern
  matches is modelled, as `anyMatch`. The exception for a malformed
  pattern (lexer.hpp:116-118) cannot happen with a predicate.
- The semantics of the emitted x86 are not modelled. The model checks
  stack depth and labels only, not the values computed. Known template
  quirks are reproduced but not judged: `&` combines into `%ecx`, `idivl`
  runs without sign extension, `/=` uses `divl`, and `continue` in a
  `do` loop skips the condition.
- `boost::format` is not modelled. Rendering is plain concatenation of the
  template pieces (`Asm.Render`).
- The order in which `boost::format` evaluates chained operands is
  unsequenced in C++. The model fixes one order: the condition first, then
  the branches. It claims only that the ids are distinct.
- The "implicit declaration" message printed for an unregistered callee
  is not modelled. The call is simply accepted.
- A user function named like a construct label (`e3`, `end3`) would
  collide with `_e3` or `_end3`. The checker's labels are typed, so this
  collision is not captured.
- A floating constant in the code generator falls into the call branch
  (codegen.hpp:828). It is modelled as a call of the empty name with no
  arguments.
- Reading `tokens.front()` on an empty list is undefined behaviour in both
  parsers. It is modelled as the error `EndOfInput`, whose message text is
  this model's own.
- The parsers' writes through uninitialised child pointers
  (parser_struct.hpp:50, 76) are undefined behaviour. Children are
  modelled as owned values.
- `std::stoi` is modelled for digit strings, the `0x` and `0` prefixes, and
  values above `INT_MAX`. A leading sign or leading whitespace is not
  accepted, although `std::stoi` skips whitespace and reads a sign.
- The type checker's `types` rank map is defined outside the modelled
  files. It is a parameter `rank`.
- Typecheck.TypePostfix: a postfix `++`/`--` is typed as a read of its
  variable. The source recurses into the postfix operand
  (typechecker.hpp:349-350), and an operand other than a variable is not
  part of this model's tree, so the two agree on every modelled tree.
- CodegenExpr.GenPostfix: a floating constant is generated as a call of
  the empty name with no arguments, without the arity check the call
  branch makes against a registered callee (codegen.hpp:829-835). A
  function registered under the empty name cannot be parsed, so the
  check could never fire.
- The annotations the type checker writes onto the tree (`return_type`,
  `operand_types`) are not modelled. It is modelled as a validator that
  returns a type or an error.
- Parser.Expression: after an error, the token list is only promised to be
  a suffix of the input, not the exact suffix the source leaves behind.
- JsonTree.ProgJsonRoundTrip: the JSON decoders read back only one function
  with one statement, which is all either parser builds.
- ExprWalk.OperandWalks: the exact number of push/pop pairs of a binary
  level with k operands is not stated. The proof shows each further
  operand's push is matched by its tail's pop, and the level as a whole
  leaves the depth unchanged.

## Findings

| source | as written | input that shows it | evidently intended | confidence | as-written member | corrected member |
|---|---|---|---|---|---|---|
| codegen.hpp:132-147 | The "multiple definitions" check compares only with the latest registered declaration, which line 147 then overwrites. A prototype between two definitions clears the mark. | `int f() {} int f(); int f() {}` compiles, with `_f:` emitted twice. | A function may be defined at most once in a program. | not executed | CodegenFacts.RedefinitionAccepted | CodegenFacts.CheckedProgram |
