# scopion: what the compiler's core guarantees

scopion parses a small expression language into a tree and translates it to LLVM IR with a visitor
that appends to an insertion point. This project models that core in Dafny and proves what it
guarantees. `dafny verify dfyconfig.toml` checks everything.

## The parts

**Translator.** `Ast`, `Interp` are the source fragment and its direct meaning: strict, left to right,
32-bit signed numbers and truth values, scopes that see outer variables and forget their own. `Ir` is
the target: blocks of alloca, load, store, arithmetic, comparison, branches and returns, with a
small-step machine. `Emitter`, `Translator`, `Evaluator` are the objects of the source (the builder
with its insertion point, the visitor with its current symbol table, the specialiser of functions),
each method tied to a function on states in `Translation` and `Evaluation`. What is proved about those
functions: finished code is never touched (`Growth`), the survey pass and the real pass agree
(`Survey`), and running emitted code does what the source means (`Words`, `Relation`, `Simulation`,
`Bodies`, `Preservation`, `Correctness`), where `WordLaws` says what the operators on words are. `Typing`
and `Verdicts` decide from the source alone what is accepted, and with which error the rest is refused.

**Control flow.** `Structure` shows that all emitted code is a layout of instructions, two-armed
branches and called bodies; `Layout`, `Cfg`, `Graph`, `Positions`, `Wellformedness`, `Functions`,
`Dominance`, `Scoping`, `Paths`, `Stores` prove the shape of emitted functions on it: exactly when they
are well-formed, that definitions dominate uses, that read-only cells are written once; `IllFormed` has
two bodies that are not. `Immutability` and `Mutability` are about flags at the level of the source.

**Structures.** `Aggregates` and `StructTranslator` are a second fragment: nested structures, paths,
choices, and assignment by copy into tables that belong to scopes or, for what was taken from a
structure, to a parent. `StructScopes` adds called scopes and scope arms; `StructExact` says exactly when
tables and values stay together, and `StructNames` has programs in which they part. `Objective` and
`CallTranslator` add calls of a structure's own functions and assignments inside operands; only the
result of evaluating a function is a parameter there. `CallValues` runs their code and says what callees
are handed, `ByValue` when that is what the arguments were when they were evaluated. `Shapes` decides
from the source alone which of all these programs are accepted.
`StructLayout` and `Arguments` are the loops that number members and arguments; `ValueGraph` is the heap
of compile-time values and their deep copy.

**Front end.** `Syntax`, `Parser`, `RoundTrip` are the precedence ladder over tokens, `Precedence` which
operator binds more tightly than which, `StringLiterals` the literal body over characters, `Equality`
and `Locations` the relations on trees and places.

## Where the code differs from its documentation or from what one expects

- `?:` groups to the left, docs/Operator.md:24 says right (`RoundTrip.ConditionalsGroupLeft`).
- A conditional left of `=` writes read-only variables (`Immutability.ReadOnlyOverwritten`).
- A `#mut` variable becomes read-only when a read-only variable's value is assigned to it
  (`Immutability.MutabilityLost`; `Mutability.StaysMutable` says exactly when).
- A body that returns a value on some paths only, or has code behind a return, yields blocks without
  terminator, or with one in the middle (`IllFormed.ReturnOnOneArm`, `IllFormed.ReturnBehindReturn`;
  `Functions.WellFormedExactly` says exactly when).
- `a.=b(args)` is documented as `a = a.:b(args)`, docs/Operator.md:45-52. They differ if an argument assigns
  to `a` a value that is read-only or taken from a structure (`Objective.ObjectiveDiffers`;
  `Objective.ObjectiveAssignment` says exactly when).
- A structure assigned to a member, or to a variable declared from one, is found under the old names
  (`StructNames.MemberRenamed`, `StructNames.TakenRenamed`; `Aggregates.MemberNamesStick` says which). The
  same holds for a variable assigned inside a scope (`StructScopes.ScopeRenamed`) and for the second arm
  of a choice (`StructNames.ArmRenamed`). `StructExact.AgreesExactly`, `StructExact.LeaveExactly` and
  `StructExact.ChoiceExactly` say exactly when it matters.
- Structures are passed by address and read when the call is made, so an argument that assigns a variable
  changes an argument to its left (`ByValue.PassedLate`; `CallValues.SimTerm` says what is passed,
  `ByValue.ByValue` when it makes no difference).
- An array whose first element starts with `!` is a parse error (`RoundTrip.NegationFirst`).
- A string that ends in a backslash cannot be written as a literal (`StringLiterals.ExactlyExpressible`).

## Model

| member | source | states |
|---|---|---|
| `Words.ArithRefines` | lib/assembly/translator_operators.cpp:128-222 | each integer instruction, run on the 32-bit or 1-bit words of two signed numbers, yields the word of the number the operator means (wrapping, `>>` logical, division truncating) and is undefined exactly where the operator is |
| `Words.CmpRefines` | lib/assembly/translator_operators.cpp:244-272 | each comparison instruction decides, on words, the signed comparison of the numbers |
| `WordLaws.BitOperators` | lib/assembly/translator_operators.cpp:209-222 | below the width, each bit of the result of `&`, bitwise or and `^` is the and, the or, or the exclusive or of that bit of the operands' words, and no bit is above it |
| `WordLaws.Division` | lib/assembly/translator_operators.cpp:181-197 | quotient and remainder satisfy `x = q * y + m` with `abs(m) < abs(y)` and `m` zero or of the sign of `x`; undefined exactly for a zero divisor and for the least number divided by -1 |
| `WordLaws.ShiftLeft` | lib/assembly/translator_operators.cpp:199-202 | a shift to the left by 0 is the number itself, and each further place doubles it |
| `WordLaws.ShiftRight` | lib/assembly/translator_operators.cpp:204-207 | a shift to the right by 0 is the word itself, and each further place halves it, without regard to the sign |
| `Emitter.Builder.NoTerminatorYet` | lib/assembly/evaluator.cpp:56-62 | the scan over the insertion block answers whether it contains no return or branch |
| `Translator.Translator.ReadVariable` | lib/assembly/translator.cpp:368-389 | reading a declared variable appends one load of its cell and copies its read-only flag; an undeclared one is an error and changes nothing |
| `Translator.Translator.BinaryOperator` | lib/assembly/translator_operators.cpp:128-272 | appends the instructions of a binary operator, both operands being translated already, or rejects void and ill-typed operands |
| `Translator.Translator.AssignOperator` | lib/assembly/translator_operators.cpp:274-329 | first assignment declares (cell, store, flag from `#mut`), later ones check the flag before the type, store, and copy the value's flag into the table |
| `Translator.Translator.Choose` | lib/assembly/translator_operators.cpp:671-701 | the temporary cell, the three blocks and the final load of a value conditional |
| `Translator.Translator.CondOperator` | lib/assembly/translator_operators.cpp:600-705 | a value conditional chooses between two operands that are both evaluated |
| `Translator.Translator.CondPlace` | lib/assembly/translator_operators.cpp:674-701 | a conditional left of an assignment reads both variables once and then chooses between their cells through a temporary pointer |
| `Translator.Translator.Visit` | include/scopion/assembly/translator.hpp:134-141 | visiting an expression takes builder and symbol table to the state, value or error of the specification `Trans` |
| `Translator.Translator.VisitPlace` | include/scopion/assembly/translator.hpp:134-141 | the left operand is visited before the right one and yields a new name, a symbol, or a pointer |
| `Translator.Translator.VisitBody` | lib/assembly/evaluator.cpp:49-63 | statements are visited in order; the value is the last one's, the flag says whether control falls through |
| `Translator.Translator.VisitCall` | lib/assembly/evaluator.cpp:277-308 | a called scope: continuation block first, body in a block and a table of its own, continuation erased if nothing falls through |
| `Translator.Translator.VisitArms` | lib/assembly/translator_operators.cpp:612-659 | a conditional with scope arms: three blocks, two copies of the table, merge block erased if no arm falls through |
| `Growth.JoinAdvances` | lib/assembly/translator_operators.cpp:647-657 | joining two arms keeps what every step keeps, whether the merge block is kept or erased: the block the conditional started in is only extended, every other earlier block is unchanged, no number is used twice, and no declared variable changes |
| `Growth.TransAdvances` | lib/assembly/translator_operators.cpp:600-705 | translating any accepted expression leaves every other block unchanged, only extends the insertion block, never reuses a block or register number, and never moves a declared variable to another cell |
| `Growth.ArmsAdvance` | lib/assembly/translator_operators.cpp:621-647 | variables declared in an arm never enter the enclosing table |
| `Growth.CallAdvances` | lib/assembly/translator.cpp:539-551 | variables declared in a called scope never enter the enclosing table |
| `Preservation.SimExpr` | lib/assembly/translator_operators.cpp:128-705 | running the emitted code of any accepted expression reaches a machine state that represents what the direct left-to-right evaluation of the source gives: value and all visible variables, or the value returned; accepted code never goes wrong |
| `Preservation.SimAll` | lib/assembly/evaluator.cpp:49-63 | the same for statement lists, through arbitrarily nested conditionals and called scopes |
| `Correctness.EvaluatePreserves` | lib/assembly/evaluator.cpp:226-274 | semantic preservation for whole functions: for every accepted literal and all argument values, running the emitted blocks from the entry returns the value, and leaves the parameters' cells, as the body's evaluation says; without value returns it returns void; a body that reaches its end although another path returns a value runs off its block |
| `Correctness.ReturnedType` | lib/assembly/evaluator.cpp:190-204 | a value actually returned has the return type of the emitted function |
| `Typing.TypingDecides` | lib/assembly/translator_operators.cpp:128-705 | an expression is accepted exactly if typing rules on the source accept it, which know the types and flags of variables only; the context behind it, the type and flag of its value and the error of a refused one are those of the rules |
| `Typing.AllTyped` | lib/assembly/evaluator.cpp:49-63 | the same for statement lists |
| `Verdicts.VerdictExactly` | lib/assembly/evaluator.cpp:139-265 | a function literal is emitted for some arguments exactly if the rules accept it, with the return type that they give and one parameter per argument, of the argument's type; otherwise it is rejected with the error they give |
| `Evaluator.Evaluator.CheckTypes` | lib/assembly/evaluator.cpp:139-145 | no result exactly if every argument has the type its parameter asks for; otherwise the one returned does not, and all before it do |
| `Evaluator.Evaluator.OpenFunction` | lib/assembly/evaluator.cpp:157-180 | the cell of the function itself and one per parameter, filled in the real pass only |
| `Evaluator.Evaluator.ScanReturns` | lib/assembly/evaluator.cpp:190-204 | the loop over all instructions yields no type, the one type, or a conflict, of all value returns |
| `Evaluator.Evaluator.EvaluateFunction` | lib/assembly/evaluator.cpp:80-275 | specialisation: the result depends on the literal and the arguments only, whatever scope the caller is in; on success the module has exactly one more function and the translator's table and insertion point are restored |
| `Survey.SurveyAgrees` | lib/assembly/evaluator.cpp:182-265 | the discarded pass and the real pass fail with the same error or both succeed, with the same value, table and types of returned values |
| `Survey.EmittedReturns` | lib/assembly/evaluator.cpp:190-265 | a function is emitted exactly if its body is accepted, its returns agree and the declared type is met; then every value return has the function's type |
| `Structure.LayTrans` | lib/assembly/translator_operators.cpp:600-705 | the code of every accepted expression is a layout of instructions, two-armed branches and called bodies, and nothing else |
| `Cfg.CodeAgrees` | lib/assembly/evaluator.cpp:49-63 | on that layout, which code ends and which puts nothing behind a terminator is decided by the source alone |
| `Functions.WellFormedExactly` | lib/assembly/evaluator.cpp:258-264 | an emitted function is well-formed (one terminator per block, in last position; branches stay inside and never enter the entry block) exactly if nothing but a literal follows what always returns and the body returns on no path or on all paths |
| `Functions.VoidExactly` | lib/assembly/evaluator.cpp:206-209 | the return type is void exactly if the body contains no return operator |
| `Functions.ReturnFree` | lib/assembly/evaluator.cpp:262-264 | a body without return operator always gives a well-formed function |
| `IllFormed.ReturnBehindReturn` | lib/assembly/evaluator.cpp:258-264 | a body of two return operators, one after the other, is emitted and is not well-formed |
| `IllFormed.ReturnOnOneArm` | lib/assembly/evaluator.cpp:258-264 | a body that returns on the first arm of a conditional only is emitted and is not well-formed |
| `Functions.FallsThroughExactly` | lib/assembly/evaluator.cpp:49-63 | the instruction scan at the end of a body equals a fall-through analysis of the source |
| `Functions.MergeExactly` | lib/assembly/translator_operators.cpp:649-657 | the merge block of a conditional survives exactly if some arm falls through |
| `Functions.ContinuationExactly` | lib/assembly/evaluator.cpp:291-305 | the block behind a called scope survives exactly if its body falls through |
| `Graph.LayTargets` | lib/assembly/translator_operators.cpp:649-657 | no branch is left without target when an unreached block is erased |
| `Positions.LaySites` | lib/assembly/translator_operators.cpp:671-701 | laying out code conserves instructions: as many of each kind in the blocks as in the code |
| `Scoping.ScopedTrans` | lib/assembly/translator.cpp:368-389 | after any translation step the cells of all visible variables and the resulting value are available registers, and so is every register the code reads |
| `Dominance.LayCertified` | lib/assembly/translator_operators.cpp:612-659 | scoped code yields blocks with a certificate of the registers available at each block's entry |
| `Paths.OneDefinition` | lib/assembly/evaluator.cpp:157-265 | every register of an emitted function is defined exactly once |
| `Paths.UseAfterDefinition` | lib/assembly/evaluator.cpp:157-265 | on every path from the entry each register is defined before it is read |
| `Paths.DefinitionDominates` | lib/assembly/evaluator.cpp:157-265 | the definition of a register dominates each of its uses |
| `Stores.ReadOnlyStoredOnce` | lib/assembly/translator_operators.cpp:285-320 | without conditionals left of `=`, every cell allocated for a variable without `#mut` receives exactly one store in the whole emitted function |
| `Immutability.ReadOnlyKept` | lib/assembly/translator_operators.cpp:316-320 | in accepted code a read-only variable keeps its value through all scopes, unless it is an arm of a conditional left of `=` |
| `Immutability.ConditionalTargetWrites` | lib/assembly/translator_operators.cpp:685-701 | for such a conditional the chosen variable gets the value whatever its flag |
| `Immutability.TargetIgnoresFlags` | lib/assembly/translator_operators.cpp:685-701 | for such a conditional place, code and error are the same whatever the flags of the two variables |
| `Immutability.ReadOnlyOverwritten` | lib/assembly/translator_operators.cpp:685-701 | a concrete accepted body that overwrites a read-only variable this way |
| `Mutability.FlagsAgree` | lib/assembly/translator_operators.cpp:307-320 | the translator's read-only flags, of variables and of values, are those of rules on the source alone: a value is read-only if it is read from a read-only variable, declared without `#mut`, or passed on by an assignment or a called scope |
| `Mutability.LastDecides` | lib/assembly/translator_operators.cpp:110-113 | after any expression a variable is read-only exactly if the value last assigned to it in this scope is, or, without assignment, if it was before |
| `Mutability.StaysMutable` | lib/assembly/translator_operators.cpp:110-113 | through any accepted statement list a mutable variable stays so exactly if no statement leaves it with a read-only value |
| `Mutability.AssignableExactly` | lib/assembly/translator_operators.cpp:316-320 | behind such a list an assignment of the right type is accepted in that case and refused as read-only otherwise |
| `Immutability.MutabilityLost` | lib/assembly/translator_operators.cpp:110-113 | a concrete body in which a `#mut` variable becomes read-only |
| `Objective.MarksAgree` | lib/assembly/translator_operators.cpp:110-113 | whether a variable is free, read-only or taken from a structure after operands with calls and assignments is decided by rules on the source alone |
| `Objective.ObjectiveAssignment` | lib/assembly/translator_operators.cpp:422-430 | `a.=b(args)` and `a = a.:b(args)` emit the same code and leave the same table exactly if `a` was not free before or is still free behind the arguments; both are refused if the call is, or returns another type; an argument that makes `a` read-only makes `.=` alone fail |
| `Objective.ObjectiveAsDocumented` | lib/assembly/translator_operators.cpp:422-430 | they are the same whenever no argument assigns `a` as a whole |
| `Objective.ObjectiveDiffers` | lib/assembly/translator_operators.cpp:422-430 | with a read-only `c` of the same type, `a = a.:b(a = c)` is accepted and `a.=b(a = c)` refused |
| `Objective.MethodCallIsDotCall` | lib/assembly/translator_operators.cpp:408-412 | `a.:b(args)` and `a.b(args, a)` have the same code, table and refusals |
| `Objective.DotCallCode` | lib/assembly/translator_operators.cpp:401-419 | the last instruction of an accepted call `a.b(args)` calls the function of the member with one operand per argument: what translating the argument yields in the state left by the ones before |
| `Objective.MethodCallCode` | lib/assembly/translator_operators.cpp:408-419 | of `a.:b(args)` the same, with the address of `a` behind them |
| `Objective.MethodSetCode` | lib/assembly/translator_operators.cpp:422-430 | of `a.=b(args)` the last but one is this call, and the last one copies what it returns to the cell of `a` |
| `Objective.EmbeddedStmt` | lib/assembly/translator_operators.cpp:274-329 | on statements without calls the operands of this module are translated as in `Aggregates` |
| `CallTranslator.CallTranslator.VisitAll` | lib/assembly/translator_operators.cpp:402-407 | the loop over the arguments visits them once, from left to right |
| `CallTranslator.CallTranslator.CallOperator` | lib/assembly/translator_operators.cpp:397-422 | a call of a member: the member is looked up first, then the arguments are translated, then the receiver, then the function is evaluated and called |
| `CallTranslator.CallTranslator.Visit` | include/scopion/assembly/translator.hpp:134-141 | visiting an operand takes code and symbol table to the state, value or refusal of `TransTerm` |
| `CallValues.SimTerm` | lib/assembly/translator_operators.cpp:397-433 | if the compiled functions do what the functions mean, running the code of any accepted operand, with calls, assignments, literals and choices nested to any depth, reaches the state that its evaluation leads to: each callee is handed, from left to right, the values of its arguments and last the receiver, where structures read from variables are those of the time of the call; all other variables keep their values |
| `CallValues.SimApply` | lib/assembly/translator_operators.cpp:415-422 | the call itself: the callee finds the values of the argument terms behind the operands it gets, and the register of the result stands for the value it returns |
| `ByValue.ByValue` | lib/assembly/translator_operators.cpp:401-412 | where no operand assigns a variable that an operand to its left reads a structure from, all operands are evaluated as values, from left to right |
| `ByValue.ProgramWithCalls` | lib/assembly/translator_operators.cpp:397-433 | after a whole program with calls each variable's cell holds the value that evaluation gives it, and the one that evaluation by value gives it wherever the condition of `ByValue` holds |
| `ByValue.PassedLate` | lib/assembly/translator_operators.cpp:401-405 | with `s#mut = [k: 1, b: ...]` and a function `b` that returns its first argument, `s.b(s, s = [k: 2, b: ...])` is accepted and returns the new structure |
| `Shapes.TermJudged` | lib/assembly/translator_operators.cpp:274-705 | a term with structures, assignments, choices and calls is accepted exactly if rules on shapes accept it, which know neither registers nor cells; the shapes of all variables and of the value behind it are those of the rules |
| `Shapes.StmtJudged` | lib/assembly/translator_operators.cpp:274-329 | the same for the statements of `Aggregates` |
| `Shapes.LinesJudged` | lib/assembly/evaluator.cpp:277-308 | and for programs with called scopes and scope arms |
| `StructTranslator.StructTranslator.Resolve` | lib/assembly/translator_operators.cpp:507-544 | the dots of a path, left to right: each appends one address computation and gives the member's symbol the new address |
| `StructTranslator.StructTranslator.Visit` | lib/assembly/translator.cpp:368-389 | variables, paths, literals and choices: code and value of the specification `TransExpr` |
| `StructTranslator.StructTranslator.VisitChoice` | lib/assembly/translator_operators.cpp:661-704 | a value conditional on structures: all three operands are visited, types and member names must agree, and the value takes the symbols of the first arm |
| `StructTranslator.StructTranslator.VisitMembers` | lib/assembly/translator.cpp:456-465 | the members of a literal are visited once, in key order |
| `StructTranslator.StructTranslator.FillFields` | lib/assembly/translator.cpp:481-491 | one address and one copy per member, in the order of their numbers |
| `StructTranslator.StructTranslator.Assign` | lib/assembly/translator_operators.cpp:274-329 | the left side is resolved first, then the value; read-only places and other types are refused; a place with a parent leaves the scope's table alone |
| `Aggregates.WalkReaches` | lib/assembly/translator_operators.cpp:507-544 | a path resolves to the chain of fields from the structure's own address, whatever addresses the copied symbols below still carry |
| `Aggregates.SimMake` | lib/assembly/translator.cpp:451-494 | a structure literal, nested to any depth, gets a cell whose fields hold its members |
| `Aggregates.LiteralReads` | lib/assembly/translator.cpp:262-298 | a number becomes the constant that reads back as it in two's complement of 32 bits, a truth value 1 or 0 |
| `Aggregates.RelStores` | lib/assembly/translator_operators.cpp:70-115 | where table and cells belong together, every number below every variable is stored in the field its path leads to, as a word that reads back as the number |
| `Aggregates.SimDeclare` | lib/assembly/translator_operators.cpp:285-315 | declaring a variable with a structure copies it into a cell of its own |
| `Aggregates.SimChoice` | lib/assembly/translator_operators.cpp:661-704 | a choice between structures yields the structure chosen if both arms name the same members all the way down |
| `Aggregates.StmtOwned` | lib/assembly/translator_operators.cpp:76-113 | every member has a parent, and so no assignment to a member ever enters anything into the scope's table |
| `Aggregates.SimReplace` | lib/assembly/translator_operators.cpp:70-115 | assigning a structure to a known variable copies it into the variable's cell, whether or not its table entry follows |
| `Aggregates.SimMember` | lib/assembly/translator_operators.cpp:70-115 | assigning to a member changes that member and nothing else |
| `Aggregates.ProgramPreserved` | lib/assembly/translator_operators.cpp:70-115 | value semantics: after any accepted program in which names agree where the table stays as it is, each variable's cell holds the value that copying assignment gives it, numbers as words that read back as they are, so writes through one variable never show in another |
| `Aggregates.MemberNamesStick` | lib/assembly/translator_operators.cpp:76-113 | a place with a parent, a member or a variable declared from one, only asks for an equal type: below it a name is found exactly if the old value had it, and means something exactly if the new one has it |
| `Aggregates.NamesFollow` | lib/assembly/translator_operators.cpp:76-113 | below a variable without parent a name is found exactly if the new value has it |
| `StructExact.NamesDecide` | lib/assembly/translator.cpp:481-491 | members being numbered in key order, the content of one structure fits the symbol of another of the same type exactly if both name the same members and functions all the way down |
| `StructExact.AgreesExactly` | lib/assembly/translator_operators.cpp:70-115 | after an accepted assignment the table describes the cells exactly if the names on both sides agree where the table stays as it is |
| `StructExact.ProgramExactly` | lib/assembly/translator_operators.cpp:70-115 | an accepted program is represented by its code and table after every statement exactly if its names agree all along |
| `StructExact.ChoiceExactly` | lib/assembly/translator_operators.cpp:661-704 | a choice represents the value chosen exactly if it is the first arm or both arms have the same names |
| `StructExact.LeaveExactly` | lib/assembly/evaluator.cpp:284-299 | when a scope ends the outer table describes the cells exactly if the scope left every outer variable with the names it had |
| `StructNames.MemberRenamed` | lib/assembly/translator_operators.cpp:76-113 | after `s#mut = [k: [a: 1]]; s.k = [b: 2]` the name `s.k.a` is accepted and has no value, `s.k.b` has one and is refused |
| `StructNames.TakenRenamed` | lib/assembly/translator_operators.cpp:76-113 | after `s#mut = [k: [a: 1]]; y#mut = s.k; y = [b: 2]` the same for `y.a` and `y.b` |
| `StructNames.ArmRenamed` | lib/assembly/translator_operators.cpp:702-703 | after `s#mut = false ? [k: [a: 1]] : [k: [b: 2]]` the same for `s.k.a` and `s.k.b` |
| `StructScopes.SimLines` | lib/assembly/translator.cpp:539-551 | value semantics through called scopes and conditionals with scope arms, nested to any depth: what a scope writes to outer variables stays, its table does not, and at its end the outer names must fit |
| `StructScopes.ProgramPreserved` | lib/assembly/evaluator.cpp:277-308 | the same for whole programs |
| `StructScopes.ScopeNames` | lib/assembly/evaluator.cpp:284-299 | after a called scope a name is found exactly if the variable had it before, and means something exactly if the scope left it with one |
| `StructScopes.ScopeRenamed` | lib/assembly/evaluator.cpp:284-299 | after `s#mut = [a: 1]; { s = [b: 2]; }()` the name `s.a` is accepted and has no value, `s.b` has one and is refused |
| `StructLayout.DictionaryOrder` | lib/assembly/translator.cpp:456-465 | one key comes before another exactly if it is a proper beginning of it or has the lesser character where they first differ |
| `StructLayout.LeastIsFirst` | lib/assembly/translator.cpp:481-482 | a map yields its keys in the order of the literal's members |
| `StructLayout.Collect` | lib/assembly/translator.cpp:456-465 | the first loop lists the types of the non-lazy members in key order |
| `StructLayout.Reuse` | lib/assembly/translator.cpp:467-476 | reusing a layout-identical type keeps the element types |
| `StructLayout.Number` | lib/assembly/translator.cpp:481-491 | the second loop numbers exactly the members the first one listed, and its type check never fails |
| `StructLayout.Build` | lib/assembly/translator.cpp:451-494 | the type stored at the number of a member is the member's type, also after reusing a type |
| `StructLayout.FieldsBijective` | lib/assembly/translator.cpp:481-491 | field numbers are exactly 0 to n-1, one per non-lazy member |
| `Arguments.CallArguments` | lib/assembly/translator_operators.cpp:401-412 | lazy arguments are passed on but are no operands; the receiver comes last |
| `Arguments.ParameterTypes` | lib/assembly/evaluator.cpp:139-150 | the parameter types are those of the non-lazy arguments |
| `Arguments.BindParameters` | lib/assembly/evaluator.cpp:240-256 | each non-lazy argument is bound to a cell filled by the parameter that counts the non-lazy ones before it; the cell of a structure or an array holds what the parameter points to, and is filled by a load |
| `Arguments.PassArguments` | lib/assembly/translator_operators.cpp:401-419 | from the supplied values to the parameters' cells: operand, parameter type and cell at each position belong to one argument exactly if the receiver, where there is one, is not lazy; a lazy receiver is an operand too many |
| `Arguments.ParametersDistinct` | lib/assembly/evaluator.cpp:240-256 | two arguments never share a parameter |
| `Arguments.OperandsMatch` | lib/assembly/translator_operators.cpp:408-412 | operands and parameters match exactly if the receiver is not lazy |
| `Arguments.OperatorNode` | include/scopion/assembly/translator.hpp:87-131 | operands are visited once, from left to right, each in the translator state the one before left; a structure as first operand unpacks argument lists and is passed last, otherwise it is the first argument |
| `Arguments.DispatchOrder` | include/scopion/assembly/translator.hpp:87-131 | with a structure as first operand the arguments are the values of the others in written order, argument lists element by element, and the structure last, in arguments and operands; otherwise all operands are arguments in written order; each is visited in the state that those before it leave |
| `Arguments.OrderAt` | include/scopion/assembly/translator.hpp:87-111 | an operand stands behind those written before it: an argument list as its elements if the first operand is a structure, as it is otherwise |
| `Arguments.EagerOnly` | lib/assembly/evaluator.cpp:139-150 | what is passed is exactly the non-lazy arguments, each at the position that counts those before it |
| `Parser.Parse` | lib/parser/parser.cpp:365-448 | every rung of the ladder consumes at least one token when it succeeds; the descent terminates on (remaining tokens, rung) |
| `Precedence.Grouping` | lib/parser/parser.cpp:396-433 | two binary operators group to the left exactly if the first one is in the group of the second or a tighter one, the groups being `**`; `*` `/`; `+` `-` `%`; the shifts; the comparisons; `&`; `^`; bitwise or; `&&`; logical or |
| `Precedence.PrefixBeforeBinary` | lib/parser/parser.cpp:390-397 | `!` and `~` bind more tightly than any binary operator |
| `Precedence.AccessBeforePrefix` | lib/parser/parser.cpp:375-394 | access to members and elements and calls bind more tightly than `!` |
| `Precedence.MemberBeforeCall` | lib/parser/parser.cpp:373-388 | access to members binds more tightly than a call |
| `Precedence.BinaryBeforeConditional` | lib/parser/parser.cpp:435-436 | `?:` binds less tightly than any binary operator, in all three places |
| `Precedence.LooseOperators` | lib/parser/parser.cpp:435-446 | `=` binds less tightly than `?:`, the pipe less tightly than `=`, the return operator least of all |
| `RoundTrip.ParseShow` | lib/parser/parser.cpp:341-448 | parsing the print of any tree with the parser's marks, with array and structure literals, parenthesised only where its rung or a leading `!` in brackets requires, gives the tree back |
| `RoundTrip.ShowInjective` | lib/parser/parser.cpp:365-448 | such prints are unambiguous |
| `RoundTrip.ShowParses` | lib/parser/parser.cpp:365-448 | the same at every rung and in front of any continuation that does not go on with an operator of that rung |
| `RoundTrip.LeadRaw` | lib/parser/parser.cpp:354-358 | a parenthesised operator expression is never taken for the parameter list of a function |
| `RoundTrip.NegationFirst` | lib/parser/parser.cpp:344-351 | an array that starts with `!` is a parse error whatever follows, because a member may be named `!=`; with parentheses around the negation it is parsed |
| `RoundTrip.CollectedKeeps` | lib/parser/parser.cpp:180-188 | whatever members are written, a structure literal has them in key order, each key once |
| `RoundTrip.CollectedInOrder` | lib/parser/parser.cpp:180-188 | members written in key order are collected as they are |
| `RoundTrip.LastIsCollected` | lib/parser/parser.cpp:181-189 | the members collected are exactly those written last with their keys |
| `RoundTrip.SoftStart` | lib/parser/parser.cpp:365-371 | an expression that cannot start at a token fails softly at every rung |
| `RoundTrip.ParseMarks` | lib/parser/parser.cpp:211-239 | in every parsed tree a node is lval exactly as first operand of an assignment, to_call exactly as callee of a call with parentheses, and no increment or decrement is left |
| `RoundTrip.IncrementIsSugar` | lib/parser/parser.cpp:225-239 | `E++` and `E--` give the trees of `E = E + 1` and `E = E - 1` |
| `RoundTrip.PrefixIsSugar` | lib/parser/parser.cpp:390-394 | so do `++E` and `--E` |
| `RoundTrip.ShortFunction` | lib/parser/parser.cpp:357-358 | a parameter list and an expression that does not begin with a brace give the function with this one line; `(x) {...}` is the function with the lines of the scope |
| `RoundTrip.ConditionalsGroupLeft` | lib/parser/parser.cpp:435-436 | `?:` groups to the left |
| `RoundTrip.AssignmentsGroupRight` | lib/parser/parser.cpp:438-440 | `=` groups to the right |
| `StringLiterals.Collect` | lib/parser/parser.cpp:143-151 | the loop over scanned pieces restores escaped quotes (and turns null characters into quotes) |
| `StringLiterals.Unescape` | lib/parser/parser.cpp:85-132 | the iterator loop computes the decoding of escapes |
| `StringLiterals.EscapeStands` | lib/parser/parser.cpp:85-132 | in front of any literal body, a backslash and a character stand for one character: a control character for the letters n, t, b, f, r, v and a, the character itself otherwise |
| `StringLiterals.StringRoundTrip` | lib/parser/parser.cpp:335-336 | a string without null character that does not end in a backslash is the value of its encoding |
| `StringLiterals.RawRoundTrip` | lib/parser/parser.cpp:338-339 | the same for raw literals |
| `StringLiterals.LiteralsExpressible` | lib/parser/parser.cpp:143-152 | no literal body stands for any other string |
| `StringLiterals.ExactlyExpressible` | lib/parser/parser.cpp:335-339 | both kinds of literal express exactly these strings |
| `ValueGraph.Value.CopyWithNewLLVMValue` | include/scopion/assembly/value.hpp:71-85 | a copy has only new nodes, observes the same names, flags, fields and nested symbols, keeps the parent, and leaves the original as it was |
| `ValueGraph.Value.Copy` | include/scopion/assembly/value.hpp:87 | a plain copy observes exactly the same |
| `ValueGraph.Value.GenerateRetTable` | include/scopion/assembly/value.hpp:111-119 | the table of a returned value holds copies of all symbols |
| `ValueGraph.ReturnOperator` | lib/assembly/translator_operators.cpp:566-572 | a return operator yields a void value with a snapshot of the operand's symbols and fields in new nodes, and leaves the operand as it was |
| `ValueGraph.ReturnThenCall` | lib/assembly/translator_operators.cpp:421-422 | the value of a call observes the symbols and fields that the returned value had when it was returned, whatever is entered into that value afterwards |
| `ValueGraph.Value.Insert` | lib/assembly/translator_operators.cpp:110-113 | inserting a copy changes one entry, keeps the graph acyclic and the source as it was |
| `ValueGraph.CopySymbols` | include/scopion/assembly/value.hpp:77-79 | the copying loop reproduces the whole table with new nodes |
| `ValueGraph.ReachedInside` | include/scopion/assembly/value.hpp:132-133 | what is reachable from an acyclic value lies in its footprint and within its depth |
| `ValueGraph.NoCycle` | include/scopion/assembly/value.hpp:132-133 | no node of such a graph lies below itself |
| `ValueGraph.CopySeparate` | include/scopion/assembly/value.hpp:71-85 | original and copy share no node and no type record |
| `ValueGraph.ChangesUnseen` | include/scopion/assembly/value.hpp:71-85 | whatever changes in the footprint of one graph is unseen in a separate one |
| `ValueGraph.InsertUnseen` | lib/assembly/translator_operators.cpp:110-113 | so what is entered into a value later is unseen in its copies |
| `ValueGraph.CopiedNode` | include/scopion/assembly/value.hpp:71-85 | each node below a copy carries the parent, name, flags and fields of the node it was copied from |
| `Equality.SameExactly` | lib/ast/compare_expr.cpp:28-96 | two trees are equal exactly if they contain no NaN and agree in all that equality looks at: not places, not survey flags, not the attributes of operator nodes |
| `Equality.Equivalence` | lib/ast/compare_expr.cpp:76-94 | equality is symmetric and transitive, and reflexive exactly on trees without NaN |
| `Equality.SurveyIsInvisible` | include/scopion/ast/util.hpp:86-117 | marking a tree for the survey never makes it unequal |
| `Equality.SurveyEverywhere` | include/scopion/ast/util.hpp:86-117 | the setter for the survey gives the flag to the node and to every operand below operator nodes, and leaves everything else of them and everything below values as it was |
| `Equality.LvalIsVisible` | include/scopion/ast/util.hpp:138-148 | the lval and to_call marks are seen, except on operator nodes |
| `Locations.LineIsMaximal` | include/scopion/error.hpp:63-69 | the stored line is the maximal part of the code around the place without newline |
| `Locations.LocationsIncrease` | include/scopion/error.hpp:77-84 | (line, column) increases strictly with the place exactly while fewer than 2^32 - 1 newlines lie before it |
| `Locations.PlaceRecovered` | include/scopion/error.hpp:77-84 | the place can be recovered from line and column, unless the line number has wrapped to zero, which happens exactly behind 2^32 - 1 newlines |

## Left out

- LLVM itself: its optimiser, verifier, type parser and constant folding; where LLVM would fail an
  assertion (a void or ill-typed operand, an empty called scope) the model has an error.
- Doubles, `**`, `!` and `~`: not in the translated fragment. Division by zero, the overflowing
  division and oversized shifts have no defined result on either side.
- Nested conditionals left of an assignment: their outer branch goes to a block that has ended.
- Scopes stored in variables, scope literals that are not called at once, and lazy values in the
  translated fragment; `Arguments` covers the loops that sort lazy values out.
- Bodies that contain function literals or calls of functions in the translated fragment. In it arguments
  come from no structure: one that does would keep its parent, and the flag of its parameter would not
  follow later assignments.
- Arrays, functions as values, the `#heap` attribute and garbage-collected allocation, imports,
  `#typeof` and `#rettypeof`.
- In the translated fragment a symbol table is a map, not a shared heap object; the heap of symbol
  tables is modelled by itself in `ValueGraph`.
- Aggregates.ProgramPreserved: asks that a structure assigned to a place with a parent names the same
  members as the old one, and the second arm of a choice those of the first; without equal names the
  statement is false, see `StructExact.ProgramExactly`.
- StructScopes.ProgramPreserved: asks the same, and that a scope leaves outer variables with the names they
  had; `StructExact.LeaveExactly` says that nothing less will do. The blocks of scopes and choices are those of
  the translated fragment and appear here as control flow only.
- Objective.ObjectiveAssignment: is about variables as receivers, in the real pass; the survey pass leaves
  out the assignment of `.=`. A literal that an operand assigns to a variable is copied at once; in the
  source it is still the literal's own node until the enclosing operator copies it, so that a later operand
  which assigns to a member of that variable would rename the members of the earlier operand.
- CallValues.SimTerm: asks that what is assigned, and the second arm of a choice, names the members and
  functions that the place, or the first arm, names, that a literal has no key twice, and that no variable
  is declared inside its own declaration. A function is what it returns for the values of its arguments: one that
  assigns to members of its parameters, and so to the caller's structures, is not modelled, nor is the
  cell in which a callee makes the structure that it returns.
- ByValue.ByValue: gives a sufficient condition; an argument may also assign the value that the
  variable had.
- Immutability.ReadOnlyKept: is false for arms of a conditional left of `=`, see
  `Immutability.ReadOnlyOverwritten`.
- Correctness.EvaluatePreserves: says nothing about a body that reaches an operation without defined
  result.
- Locations.LocationsIncrease: asks for places below 2^32; beyond, columns wrap as well.
- Characters to tokens: the grammar works on characters, the model on a maximal-munch token sequence.
  Inputs on which the two differ are left out, such as `f(a |> b)`, where the grammar takes the bar for
  an operator and fails; so are identifiers that start like `true`, `false`, `inf` or `nan`.
- Attributes (`#key:value`) inside expressions, decimals, negative literals, strings, operator names as
  keys and behind a dot, and predefined variables are not in the token grammar.
- Skipping of blanks and comments, including blanks at the start of a string literal's body.
- The order in which C++ evaluates the two comparisons of `&&` and `||` is not specified; the model
  has the left one first.
- The printer of the repository writes a debug form that the grammar does not read; the printer here
  is part of the specification.
- The driver, module handling, import of C headers, installers and error colours.
