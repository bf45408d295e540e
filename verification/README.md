# ootmm-ap-generator core in Dafny

The generator turns the logic of the OoTMM randomizer into Python modules. Its
core is modelled here:

- the logic printer, which walks a JavaScript logic expression and writes it as
  Python. It handles operator precedence and the special forms: flag pairs,
  `cond`, event-like calls, `setting` and `super`. Identifiers are classified as
  local, macro or quoted token;
- the macro registry that the printer queries. It records unresolved calls on
  the root of its parent chain;
- the token rewriting applied before parsing;
- the stub emitter of the macro base class;
- region post-processing: name fixes, duplicate-location hoisting, the
  region file's order and location numbering;
- the option category tree, casing helpers, base types and choice numbering;
- the indenting writer in front of the formatter, and the formatter's command
  line.

Modules follow the source files:

| module | source |
|---|---|
| `Printer` (printer.dfy) | TextWriterExtentions.cs |
| `PrinterFacts` (printer_facts.dfy) | lemmas about TextWriterExtentions.cs |
| `Macros` (macros.dfy) | MacroSet.cs |
| `Tokens` (tokens.dfy) | ParserExtensions.cs |
| `Stubs` (stubs.dfy) | MacroGenerator.cs |
| `Regions` (regions.dfy) | RegionGenerator.cs |
| `Options` (options.dfy) | OptionsGenerator.cs |
| `Python` (python.dfy) | PythonWriter.cs |

Shared modules:

- `Casing`: the camelCase to snake_case regexes of both files.
- `Strings`: ASCII text, ordinal order and sorted enumeration.
- `Ast`: the Esprima node kinds the printer handles.
- `Faults`: `Result`/`Option` and the exception kinds.
- `Texts`: literal text equalities used by the worked examples.

## Modelling choices

**The printer is a pure function.**

- Its input is an expression, a `Context` and the root's record of unresolved
  calls (`missing`).
- It returns a `Result` holding the written document and the new record.
- The document is a sequence of characters plus `Indent`/`Dedent` marks for the
  printer's own `Indent++`/`Indent--`.
- It reads the registry through `Macros.Chain`: the arity tables of the set and
  of its ancestors, nearest first.
- `Macros.MacroSet.Has` is a method on a class with `keys`, `macros` and
  `missing` fields. Its contract says it is `Macros.Probe` on that chain.
- Each exception becomes an `Err` of the same kind:
  - an unhandled node kind, operator or literal, a block-bodied arrow, a
    `cond` with the wrong arity, and an event call with no argument raise
    `NotImplemented`;
  - an identifier cast raises `InvalidCast`;
  - a blank macro name raises `InvalidArgument`.

**The registry keeps one record per signature string**, as MacroSet.cs:157-165
does. For example, `foo(self, a)` and `foo(self, a, b, c)` are two entries. An
account of the system that widens one record per name to an arity range does
not match the code; the model follows the code. The stub emitter is modelled
over its own `(Name, ArgsMin, ArgsMax)` record, as MacroGenerator.cs:89-101
reads.

**Behaviour kept as written:**

- The right operand of a binary operator is printed at the operator's own
  precedence, so `1 - (2 - 3)` prints as `1 - 2 - 3`
  (`PrinterFacts.RightNestedDifference`).
- `TypeName` is never null, so the `EmptyStatement` branch of `Wrapper`
  (MacroSet.cs:36-39) is unreachable. An unnamed set's wrapper is a class named
  by the empty string.

**Mutable objects.**

- Objects whose fields the source updates in place are classes:
  - `Macros.MacroSet`;
  - `Python.PythonWriter`;
  - `Options.CategoryTree`;
  - `Regions.RegionWriter`;
  - `Stubs.MacroGenerator`.
- Dictionaries the source mutates in loops are `map` values, updated by methods
  with loops:
  - the location counters (`Regions.CountUses`);
  - the hoisting loop (`Regions.Hoist`);
  - `ReadDictionary` (`Regions.ReadSection`);
  - the location table (`Regions.LoadTable`).
- Each method is proved against a specification function (for example
  `Regions.Hoisted`, `Options.Lookup`, `Options.Filed` or `Python.Layout`). The
  properties are proved about that function.

## Model

| member | source | states |
|---|---|---|
| Printer.Initial | TextWriterExtentions.cs:35-42 | A top-level walk starts at precedence 0 with no bound names, carrying the given token map, game label, receiver name and macro chain |
| Printer.Nested | TextWriterExtentions.cs:28-29 | A name is bound in the nested context iff it was bound before or is one of the new names; nothing else in the context changes |
| Printer.NestedAppend | TextWriterExtentions.cs:28-29 | Binding two lists of names one after the other equals binding them together, and binding none changes nothing |
| Printer.FixIdentifier | TextWriterExtentions.cs:450-457 | `id`, `range` and `type` gain a trailing `_`, every other name is kept, and the result is never one of the three |
| Printer.EventName | TextWriterExtentions.cs:192-196 | A name starting with `OOT_` or `MM_` is kept; any other gets the upper-cased game label and `_` in front |
| Printer.BinaryToken | TextWriterExtentions.cs:130-138 | Fails with NotImplemented exactly for operators other than `\|\|`, `&&`, `+`, `-`; the accepted ones have precedence at least 3 |
| Printer.UnaryToken | TextWriterExtentions.cs:360-365 | Only `!` is accepted, written `not ` at precedence 5; any other unary operator fails |
| Printer.PrintLiteral | TextWriterExtentions.cs:326-345 | Fails exactly on literals other than boolean, null and number |
| Printer.PrintExpr | TextWriterExtentions.cs:55-69 | The expression dispatch; a successful walk only adds to the record of unresolved calls (success and texts: PrinterFacts rows) |
| Printer.PrintBinary | TextWriterExtentions.cs:99-152 | Binary nodes and flag-pair fusion; the record only grows |
| Printer.PrintCall | TextWriterExtentions.cs:154-265 | Calls: `cond`, event-like, `setting`, `super`, macro calls and non-identifier callees; the record only grows |
| Printer.PrintCond | TextWriterExtentions.cs:169-181 | `cond` operands at the conditional's precedence, the record passed on from the true branch to the condition to the false branch; the record only grows |
| Printer.PrintIdentifier | TextWriterExtentions.cs:295-324 | Identifier classification; the record only grows |
| Printer.PrintArgs | TextWriterExtentions.cs:253-264 | Comma-separated arguments at precedence -1; the record only grows |
| Printer.PrintSettingArgs | TextWriterExtentions.cs:208-233 | `setting` arguments; the record only grows |
| Printer.PrintStmt | TextWriterExtentions.cs:377-448 | Statement dispatch, class declarations and `return`; the record only grows |
| Printer.PrintBlock | TextWriterExtentions.cs:393-405 | An empty block is `pass`; the record only grows |
| Printer.PrintStmts | TextWriterExtentions.cs:401-404 | The statements of a block in order; the record only grows |
| Printer.PrintMethods | TextWriterExtentions.cs:422-427 | The methods of a class in order; the record only grows |
| Printer.PrintTop | TextWriterExtentions.cs:35-53 | `WriteExpressionAsync`: the walk from the initial context; the record only grows |
| PrinterFacts.PrintExprSucceeds | TextWriterExtentions.cs:55-69 | Printing succeeds iff the expression lies in the handled subset given the bound names (`PrintableExpr`: handled node kinds, operators and literals, concise arrows, named functions, `cond` of arity 3, identifier event and setting arguments, non-blank names) |
| PrinterFacts.PrintBinarySucceeds | TextWriterExtentions.cs:99-152 | A binary node prints iff its operator is handled (or it is a flag pair) and its operands print |
| PrinterFacts.PrintCallSucceeds | TextWriterExtentions.cs:154-265 | A call prints iff its callee and arguments meet the rules of its form |
| PrinterFacts.CondCallSucceeds | TextWriterExtentions.cs:162-182 | `cond` prints iff it has exactly three printable arguments |
| PrinterFacts.PrintCondSucceeds | TextWriterExtentions.cs:169-181 | A three-argument `cond` prints iff all three operands do |
| PrinterFacts.EventCallSucceeds | TextWriterExtentions.cs:183-207 | An event-like call prints iff its first argument exists and is an identifier and the rest print |
| PrinterFacts.SettingCallSucceeds | TextWriterExtentions.cs:208-234 | `setting` prints iff every argument is an identifier and every bound one is non-blank |
| PrinterFacts.SuperCallSucceeds | TextWriterExtentions.cs:235-252 | `super` prints iff its arguments print |
| PrinterFacts.MacroCallSucceeds | TextWriterExtentions.cs:236-246 | Any other identifier callee prints iff its name is not blank and its arguments print |
| PrinterFacts.PrintArgsSucceed | TextWriterExtentions.cs:253-264 | An argument list prints iff each argument does |
| PrinterFacts.PrintSettingArgsSucceed | TextWriterExtentions.cs:208-233 | `setting` arguments print iff each is an identifier and each bound one is non-blank |
| PrinterFacts.PrintStmtSucceeds | TextWriterExtentions.cs:377-391 | A statement prints iff it is an expression, block, class or return statement whose parts print |
| PrinterFacts.PrintBlockSucceeds | TextWriterExtentions.cs:393-405 | A block prints iff all its statements do |
| PrinterFacts.PrintStmtsSucceed | TextWriterExtentions.cs:401-404 | A statement list prints iff all its statements do |
| PrinterFacts.PrintMethodsSucceed | TextWriterExtentions.cs:422-427 | A class body prints iff all its methods do |
| PrinterFacts.OwnPrecedence | TextWriterExtentions.cs:130-138 | An operator node's own precedence lies between 2 (`cond`) and 11 (`+`, `-`) |
| PrinterFacts.ParenthesesFollowPrecedence | TextWriterExtentions.cs:130-151 | Printing an operator node at inherited precedence q is printing it at its own precedence p, wrapped in parentheses exactly when q > p |
| PrinterFacts.LiteralText | TextWriterExtentions.cs:326-345 | `true`, `false` and a number print as `True`, `False` and the number's text, recording nothing |
| PrinterFacts.OperatorText | TextWriterExtentions.cs:139-151 | A binary node prints `l op r`, both operands at the operator's precedence, the record passed left to right, parenthesised iff the inherited precedence is higher |
| PrinterFacts.CondText | TextWriterExtentions.cs:162-181 | `cond(c, t, f)` in any letter case prints `t if c else f`, operands at precedence 2, parenthesised iff the inherited precedence is above 2 |
| PrinterFacts.NotText | TextWriterExtentions.cs:355-375 | `!a` prints `not a`, operand at precedence 5, parenthesised iff the inherited precedence is above 5 |
| PrinterFacts.OrInsideAnd | TextWriterExtentions.cs:130-151 | `(true \|\| false) && true` prints `(True or False) and True` |
| PrinterFacts.AndInsideOr | TextWriterExtentions.cs:130-151 | `true && false \|\| true` prints `True and False or True` |
| PrinterFacts.AndInsideNot | TextWriterExtentions.cs:355-375 | `!(true && false)` prints `not (True and False)` |
| PrinterFacts.RightNestedDifference | TextWriterExtentions.cs:139-151 | `1 - (2 - 3)` and `(1 - 2) - 3` both print `1 - 2 - 3`: an equal-precedence operand is never parenthesised |
| PrinterFacts.FlagPairOrderIrrelevant | TextWriterExtentions.cs:102-128 | `flag_on(X) && flag_off(Y)` and `flag_off(Y) && flag_on(X)` print the same |
| PrinterFacts.FlagPairExample | TextWriterExtentions.cs:102-128 | `flag_off(Y) && flag_on(X)` prints `self.flags_on_off("X", "Y")` and records `flags_on_off(self, a, b)` |
| PrinterFacts.SameFlagsNotFused | TextWriterExtentions.cs:102-128 | Two `flag_on` calls print as an ordinary `and` of two calls |
| PrinterFacts.QuotedArgument | TextWriterExtentions.cs:311-322 | An unbound, undefined name at negative precedence prints as a quoted string and records nothing |
| PrinterFacts.OneArgumentCall | TextWriterExtentions.cs:236-264 | `f(x)` prints `self.f("x")` and records `f(self, a)` when nothing defines `f` |
| PrinterFacts.CondArity | TextWriterExtentions.cs:162-168 | `cond` with other than three arguments fails with NotImplemented |
| PrinterFacts.CondExample | TextWriterExtentions.cs:162-181 | `Cond(true, 1, 2)` prints `1 if True else 2` |
| PrinterFacts.CondInsideOr | TextWriterExtentions.cs:162-181 | `Cond(true, 1, 2) \|\| false` prints `(1 if True else 2) or False` |
| PrinterFacts.EventNameNamesGame | TextWriterExtentions.cs:192-196 | For the OoT and MM labels an event name always names a game, and prefixing twice equals prefixing once |
| PrinterFacts.EventFaults | TextWriterExtentions.cs:183-191 | An event-like call without arguments fails with NotImplemented; a non-identifier first argument fails with InvalidCast |
| PrinterFacts.OneEventCall | TextWriterExtentions.cs:183-207 | `event(X)` prints `self.event("<event name of X>")` and records `event(self, a)` |
| PrinterFacts.EventExamples | TextWriterExtentions.cs:183-207 | With game MM, `event(FOO)` prints `"MM_FOO"` and `event(OOT_BAR)` keeps `"OOT_BAR"` |
| PrinterFacts.SettingCallAround | TextWriterExtentions.cs:208-234 | `setting(x)` is `self.setting(` + its argument text + `)`, recording `setting(self, a)` |
| PrinterFacts.FreeSettingCall | TextWriterExtentions.cs:208-233 | An unbound `setting` argument prints as its snake-cased name in quotes |
| PrinterFacts.BoundSettingCall | TextWriterExtentions.cs:208-233 | A bound `setting` argument prints as the fixed local name |
| PrinterFacts.SettingExample | TextWriterExtentions.cs:208-233 | `setting(logicFooBAR)` prints `self.setting("logic_foo_bar")` |
| PrinterFacts.LambdaSettingExample | TextWriterExtentions.cs:71-97 | `x => setting(x)` prints `lambda x: self.setting(x)` |
| PrinterFacts.MacroCallNeverRefused | TextWriterExtentions.cs:236-246 | A macro call prints iff its arguments do; it starts `self.<lower-cased name>(`, and an unresolved one is recorded with its argument count |
| PrinterFacts.IdentifierCases | TextWriterExtentions.cs:295-324 | Blank name fails; a name defined with 0 parameters prints `self.<name>`; else a local prints its fixed name; else at precedence ≥ 0 `self.<name>` and recorded; else a quoted token after token-map replacement |
| PrinterFacts.NamedFunction | TextWriterExtentions.cs:267-293 | A function prints `@property` when it has no parameters, then `def <lower-cased name>(self, p: Any, ...):` and its indented body with its parameters bound |
| PrinterFacts.PropertyExample | TextWriterExtentions.cs:267-293 | A macro `IsAdult` with body `true` prints `@property`, `def isadult(self):` and `return True` indented |
| PrinterFacts.SuperInitCall | TextWriterExtentions.cs:347-353 | `super().__init__(state)` prints unchanged, with no receiver before `super` |
| PrinterFacts.InitExample | TextWriterExtentions.cs:267-293 | The wrapper's constructor prints `def __init__(self, state: Any):` and the indented `super().__init__(state)` |
| PrinterFacts.ClassExample | TextWriterExtentions.cs:407-428 | A class with a superclass prints `class MacrosOoT(MacrosBase):` and its indented methods, the indentation never closed |
| Macros.MacroFunction | MacroSet.cs:122-140 | A definition becomes a function expression named by its key, with its parameters and a one-statement `return` body |
| Macros.Letters | MacroSet.cs:157-163 | The `n` parameter names of a record are the letters from `a` on |
| Macros.ShortSignatures | MacroSet.cs:157-165 | Calls with one and two arguments record `name(self, a)` and `name(self, a, b)` |
| Macros.Probe | MacroSet.cs:147-170 | `Has(name, n, force)` on a chain; a successful probe never removes a record |
| Macros.LocalDefinitionDecides | MacroSet.cs:151-152 | A set defining the name decides alone, by arity, whatever its ancestors hold |
| Macros.ShadowingExample | MacroSet.cs:151-153 | A nearer `f` with 1 parameter hides an ancestor `f` with 2 |
| Macros.ForcedProbeFinds | MacroSet.cs:155-169 | With `force`, a non-blank name is always found |
| Macros.UnforcedProbeRecordsNothing | MacroSet.cs:153 | A probe without `force`, as every ancestor probe is, records nothing |
| Macros.RecordsOnlyUnresolved | MacroSet.cs:155-165 | Whatever a probe adds is the signature of the probed call, added only when forced and unresolved |
| Macros.ProbeIdempotent | MacroSet.cs:165 | Probing the same name and arity twice records the same as once |
| Macros.SignatureLength | MacroSet.cs:157-165 | A record is the name plus `(self)` plus three characters per argument |
| Macros.Signature | MacroSet.cs:157-165 | The record of an unresolved call starts with the macro's name followed by `(self` and ends with `)` |
| Macros.DifferentAritiesDifferentRecords | MacroSet.cs:157-165 | Different argument counts of one name give different records |
| Macros.SignatureShort | MacroSet.cs:157-165 | `foo` with 0 and 1 arguments records `foo(self)` and `foo(self, a)` |
| Macros.SignatureLong | MacroSet.cs:157-165 | `foo` with 3 arguments records `foo(self, a, b, c)` |
| Macros.TwoCallSitesTwoRecords | MacroSet.cs:153-167 | `foo` called with 1 and then 3 arguments leaves two separate records |
| Macros.MacroSet.Chain | MacroSet.cs:93 | The objects of the parent chain, the set itself among them |
| Macros.MacroSet.Unnamed | MacroSet.cs:22 | `new MacroSet()`: no type name, no parent, nothing defined or recorded |
| Macros.MacroSet.constructor | MacroSet.cs:24-30 | A non-blank type name and the given parent; nothing defined or recorded |
| Macros.MacroSet.Root | MacroSet.cs:93 | The topmost ancestor, which has no parent |
| Macros.MacroSet.View | MacroSet.cs:151-153 | The arity tables from this set up to the root, this set's first |
| Macros.MacroSet.Arities | MacroSet.cs:151-152 | Defines exactly the names this set defines |
| Macros.MacroSet.Missing | MacroSet.cs:95 | The root's record, in strictly ascending ordinal order, holding exactly its elements |
| Macros.MacroSet.Macros | MacroSet.cs:97 | One function per key, in definition order |
| Macros.MacroSet.Wrapper | MacroSet.cs:32-91 | `class TypeName(ParentTypeName)` (superclass iff a parent exists) holding `__init__(state)` then the macros in order |
| Macros.MacroSet.Define | MacroSet.cs:122-140 | The key is appended always; the definition is added iff the name is new, else InvalidArgument with the definitions unchanged |
| Macros.MacroSet.Has | MacroSet.cs:147-170 | Result and new root record are those of `Probe` on the chain; nothing else changes |
| Macros.MacroSet.HasValue | MacroSet.cs:145 | `Has(name, force)` is `Has(name, 0, force)` |
| Macros.MacroSet.DefineAll | MacroSet.cs:113-141 | Filling a new set fails iff a name repeats; otherwise keys are the names in order and each name holds its entry |
| Macros.Create | MacroSet.cs:101-143 | A blank type name or a repeated name fails; otherwise a fresh valid set under the parent with the entries defined in order and nothing recorded |
| Tokens.RunLength | ParserExtensions.cs:32-33 | The length of the maximal run of word characters a text starts with |
| Tokens.Rewrite | ParserExtensions.cs:25-29 | `Token.Replace` with the map: when every value is made of word characters, the characters between words come out unchanged and in order |
| Tokens.RewriteUnmatched | ParserExtensions.cs:26-29 | Text none of whose words is a key is unchanged |
| Tokens.EmptyMapIdentity | ParserExtensions.cs:26-29 | The empty map changes nothing |
| Tokens.RewriteSplits | ParserExtensions.cs:26-29 | A non-word character is kept, and the text on each side of it is rewritten on its own |
| Tokens.WholeWord | ParserExtensions.cs:26-29 | A whole word becomes its map value, or stays, and the value is not rescanned |
| Tokens.DefaultMapWords | ParserExtensions.cs:12-13 | The default map rewrites `var` to `variable` and leaves `var_x` and `variable` alone |
| Tokens.DefaultMapChanges | ParserExtensions.cs:12-13 | With the default map (`var` to `variable`) a text changes exactly when `var` is one of its words |
| Tokens.RewriteLonger | ParserExtensions.cs:25-29 | A map whose values are never shorter than their keys never shortens a text, and lengthens it when a word of the text has a longer value |
| Tokens.WordInCall | ParserExtensions.cs:26-29 | In `f(w)` both words are replaced and the punctuation kept |
| Tokens.WordInQuotes | ParserExtensions.cs:25-29 | Quotes do not protect a word: `'w'` becomes `'<value of w>'` |
| Tokens.DefaultMapInContext | ParserExtensions.cs:25-29 | `has(var)` becomes `has(variable)` and `'var'` becomes `'variable'` |
| Tokens.SinglePass | ParserExtensions.cs:26-29 | With `a -> b` and `b -> c`, `a` becomes `b` and `a b` becomes `b c` |
| Casing.UnderscoreIsPointwise | TextWriterExtentions.cs:459-460 | The left-to-right regex replacement inserts `_` before exactly the runs of capitals that follow a non-capital word character |
| Casing.SnakeCase | OptionsGenerator.cs:276-277 | The result holds no upper-case letter |
| Casing.SnakeCaseLength | OptionsGenerator.cs:424-425 | The conversion adds one character per matched run and drops none |
| Casing.SnakeCaseIdempotent | TextWriterExtentions.cs:459-460 | Converting twice equals converting once |
| Casing.SnakeCaseWords | OptionsGenerator.cs:276-277 | `FooBar` becomes `foo_bar`, `ABC` becomes `abc` |
| Casing.SnakeCaseRun | TextWriterExtentions.cs:459-460 | `logicFooBAR` becomes `logic_foo_bar`: a run of capitals is one word |
| Casing.SnakeCaseDigit | TextWriterExtentions.cs:459-460 | `a1B` becomes `a1_b`: a digit ends a word |
| Strings.Lower | TextWriterExtentions.cs:159 | `ToLowerInvariant` on ASCII: same length, each upper-case letter replaced by its own lower-case letter (code + 32), nothing else changed |
| Strings.Upper | TextWriterExtentions.cs:195 | `ToUpperInvariant` on ASCII: same length, each lower-case letter replaced by its own upper-case letter (code - 32), nothing else changed |
| Strings.NatToString | RegionGenerator.cs:176 | A number's decimal text is non-empty and all digits |
| Strings.NatToStringRoundTrip | PythonWriter.cs:210 | Reading a number's decimal text back gives the number |
| Strings.SortedFacts | MacroSet.cs:20 | A sorted set enumerates each element once, in strictly ascending order |
| Stubs.DefaultIffOptional | MacroGenerator.cs:95 | Parameter `i` gets ` = None` exactly when `i >= ArgsMin` |
| Stubs.DefaultsTrail | MacroGenerator.cs:92-96 | Once a parameter has a default, every later one has one |
| Stubs.ParametersNoLineFeed | MacroGenerator.cs:92-96 | A parameter list holds no line feed |
| Stubs.ParametersExample | MacroGenerator.cs:92-96 | ArgsMin 1, ArgsMax 2 gives `, a: Any, b: Any = None` |
| Stubs.StubExample | MacroGenerator.cs:91-101 | `has` with 1 to 2 arguments gives `def has(self, a: Any, b: Any = None):raise NotImplementedError` and a line feed |
| Stubs.StubIsOneLine | MacroGenerator.cs:91-101 | A stub written at line start is one line indented once, and leaves the writer at line start |
| Stubs.StubText | MacroGenerator.cs:91-101 | A stub is one line: it ends with a line feed and holds no other when the macro name holds none |
| Stubs.StubsAreLines | MacroGenerator.cs:89-102 | The stub section is one indented line per record, in the order of the records |
| Stubs.Put | MacroGenerator.cs:91 | Writing a piece extends the written text by the piece and the output by its layout |
| Stubs.PutParameter | MacroGenerator.cs:94-95 | One loop step writes parameter `i` with its default when optional |
| Stubs.PutBody | MacroGenerator.cs:99-101 | The body follows the colon on the same line; the indentation comes back to where it was |
| Stubs.EmitStub | MacroGenerator.cs:91-101 | One record's stub text is written; the indentation is unchanged |
| Stubs.EmitStubs | MacroGenerator.cs:87-104 | The whole loop writes the stub texts of all records one level deeper, and the indentation comes back |
| Stubs.EmitEach | MacroGenerator.cs:89-102 | The loop writes the stub texts of all records in order; the indentation is unchanged |
| Stubs.Invoke | MacroGenerator.cs:106-114 | A helper call returns a value iff a helper of that name exists |
| Stubs.MacroGenerator.constructor | MacroGenerator.cs:9-11 | `MacrosBase` is a fresh set named `MacrosBase` with nothing recorded; no game sets yet |
| Stubs.MacroGenerator.Generate | MacroGenerator.cs:34-39 | `Macros{game}` under `MacrosBase`, whose root is `MacrosBase`; fails iff a name repeats |
| Stubs.MacroGenerator.GenerateOot | MacroGenerator.cs:13-22 | Sets `MacrosOot` to a fresh `MacrosOoT` rooted at `MacrosBase` iff no name repeats |
| Stubs.MacroGenerator.GenerateMm | MacroGenerator.cs:24-32 | Sets `MacrosMm` to a fresh `MacrosMM` rooted at `MacrosBase` iff no name repeats |
| Stubs.SharedRecord | MacroGenerator.cs:38-39 | An unresolved forced lookup in a game set lands in `MacrosBase`'s record |
| Regions.StripGame | RegionGenerator.cs:271-272 | The result is the name or the name without a leading `OOT ` or `MM `, removed iff it was there |
| Regions.StripOnce | RegionGenerator.cs:271-272 | A tag is removed exactly once, the rest kept |
| Regions.StripOrder | RegionGenerator.cs:271-272 | `OOT ` is checked first and only one tag goes: `OOT MM x` gives `MM x` |
| Regions.BuildMap | RegionGenerator.cs:274 | Filling a dictionary with `Add` succeeds iff no key repeats, and then holds exactly the entries |
| Regions.Stripped | RegionGenerator.cs:266-272 | Every entry name of a section is stripped, logic kept |
| Regions.ReadSection | RegionGenerator.cs:261-278 | An absent section is empty; otherwise the stripped entries, failing iff two stripped names collide |
| Regions.VanillaItem | RegionGenerator.cs:303-313 | An item in neither the overrides nor the token map is kept |
| Regions.OverrideOnce | RegionGenerator.cs:20-21 | With the `overrides` table (`Regions.Overrides`), `MM_ARROWS_20` becomes `MM_ARROWS_30` (then the token map), not `MM_ARROWS_40` |
| Regions.DropNumber | RegionGenerator.cs:357 | Removes the white-space-then-digits suffix when there is one (leaving no white space at the end) and otherwise nothing |
| Regions.Pool | RegionGenerator.cs:327-353 | The other game's names, each with its number removed, and nothing else |
| Regions.FixName | RegionGenerator.cs:320-324 | `{game} ` is prefixed iff the unnumbered name is in the other pool |
| Regions.SharedNamesPrefixed | RegionGenerator.cs:320-324 | A name whose unnumbered form the other game also uses is prefixed |
| Regions.LocationRow | RegionGenerator.cs:300-315 | A row is keyed by the CSV location key |
| Regions.Rows | RegionGenerator.cs:298-316 | One row per record, in record order, each built from that record |
| Regions.LoadTable | RegionGenerator.cs:281-318 | The table holds exactly the rows' keys with their rows; fails iff a key repeats |
| Regions.CountUses | RegionGenerator.cs:100-105 | Fails with KeyNotFound iff some region lists a location missing from the table; otherwise each location's count is the number of regions listing it |
| Regions.CountRegion | RegionGenerator.cs:102-105 | One region's locations each counted once more; fails iff one is not in the table |
| Regions.HoistedNone | RegionGenerator.cs:107-120 | Hoisting no location changes nothing |
| Regions.MoveLift | RegionGenerator.cs:111-114 | Moving one more location from locations to exits is lifting it too |
| Regions.HoistClash | RegionGenerator.cs:113-117 | Hoisting one more location fails iff it would fail on the original regions |
| Regions.HoistAgrees | RegionGenerator.cs:107-120 | One pass of the loop extends the hoisting by one location, in any order |
| Regions.Hoist | RegionGenerator.cs:107-120 | The loop over shared locations gives `Hoisted(regions, shared)`, failing iff an `Add` would meet an existing key |
| Regions.HoistOne | RegionGenerator.cs:109-119 | One pass: every region listing the location moves it to its exits, and a region of its own is added; fails iff a key exists |
| Regions.PostProcess | RegionGenerator.cs:100-120 | Counting then hoisting: succeeds iff every location is in the table and no hoisting clashes, giving the hoisted regions |
| Regions.HoistedAt | RegionGenerator.cs:107-120 | After hoisting, the regions are the old ones lifted plus one `{loc: "true"}` region per hoisted location |
| Regions.HoistedListing | RegionGenerator.cs:107-120 | A shared location leaves each listing region's locations for its exits with the same logic; other listings stay |
| Regions.SingleHome | RegionGenerator.cs:107-120 | After hoisting no location is listed by two regions |
| Regions.NothingLost | RegionGenerator.cs:107-120 | After hoisting every location once listed is still listed by some region |
| Regions.Shortcut | RegionGenerator.cs:220-223 | Logic `true` and `false`, and only they, are written as helpers |
| Regions.WriteLogic | RegionGenerator.cs:216-235 | `true` is `always`, `false` is `never`; other logic fails when parsing its rewritten text fails |
| Regions.LambdaLogic | RegionGenerator.cs:224-233 | Other logic is `(lambda s: <body>)`, the body printed from the default-token-map text with `s` bound |
| Regions.FalseLogicHoldsAsWritten | MacroGenerator.cs:112-113 | Logic `false` calls `never`, which as written returns `True` |
| Regions.LiteralLogicEvaluates | RegionGenerator.cs:220-223 | With `never` returning `False`, each literal logic evaluates to the value it spells |
| Regions.LocationIds | RegionGenerator.cs:171-181 | A region's locations are numbered consecutively from the current count in ascending key order |
| Regions.ExitLines | RegionGenerator.cs:151-165 | One exit line per exit, in ascending name order, each carrying that exit's logic |
| Regions.LocationLines | RegionGenerator.cs:167-186 | One location line per location, in ascending key order, numbered consecutively from the current count, with the table row's name, type and item and the location's logic |
| Regions.EventLines | RegionGenerator.cs:188-206 | One event line per event, in ascending name order, named by `EventName` with the game label and carrying the event's logic |
| Regions.RegionIds | RegionGenerator.cs:147-210 | A region's lines carry exactly its own location numbers, from the current count |
| Regions.RegionOpens | RegionGenerator.cs:147-149 | A region's lines open that region alone |
| Regions.FileShape | RegionGenerator.cs:147 | The file opens every region once in ascending order and numbers all listed locations consecutively |
| Regions.RegionWriter.constructor | RegionGenerator.cs:23 | Nothing written; the location counter is 0 |
| Regions.RegionWriter.WriteExits | RegionGenerator.cs:151-165 | Appends the exits block, exits in ascending order; counter unchanged |
| Regions.RegionWriter.WriteLocations | RegionGenerator.cs:167-186 | Writes the locations section from the table, numbering from the counter, which grows by the count |
| Regions.RegionWriter.WriteEvents | RegionGenerator.cs:188-206 | Writes the events section in ascending order, names prefixed with the game label |
| Regions.RegionWriter.WriteRegion | RegionGenerator.cs:147-210 | One region's lines; opens that region and numbers its locations from the old counter |
| Regions.RegionWriter.WriteRegions | RegionGenerator.cs:145-213 | All regions in ascending name order; the counter grows by the number of listed locations |
| Options.Select | OptionsGenerator.cs:77-79 | The selected settings are all included and no more than the input |
| Options.IncludedCases | OptionsGenerator.cs:113-114 | The seven keys of `exclude` (`Options.Excluded`, :14-18) never become options; only the exact category `entrances` is dropped, so its sub-categories and other spellings are kept |
| Options.SelectKeeps | OptionsGenerator.cs:113-114 | A setting survives iff it is in the input and included |
| Options.SelectAppend | OptionsGenerator.cs:77-79 | Selection keeps input order |
| Options.TypeName | OptionsGenerator.cs:253-258 | Fails iff the key is empty; else same length, rest kept, first character not lower-case, and a key not starting lower-case is kept whole |
| Options.TypeNameFolds | OptionsGenerator.cs:253-258 | Keys differing only in their first letter's case give the same type name |
| Options.BaseType | OptionsGenerator.cs:260-274 | Boolean true/false gives DefaultOnToggle/Toggle, number Range, enum OoTMMChoice, set OptionSet; anything else InvalidOperation |
| Options.BaseTypeSeparates | OptionsGenerator.cs:260-274 | Two settings share a base type iff they share kind (and boolean default) |
| Options.ChoiceIdentifier | OptionsGenerator.cs:355-359 | A value other than `random` is written as its `ToIdentifier` (snake case) form, so the `Casing` lemmas apply to it; no choice identifier has an upper-case letter |
| Options.ChoiceIdentifierExamples | OptionsGenerator.cs:355-359 | Only the exact value `random` becomes `randomized` |
| Options.Matches | OptionsGenerator.cs:374-376 | The positions whose name equals the default, ascending |
| Options.DefaultIndex | OptionsGenerator.cs:373-377 | Fails iff two values match the default; else the one matching position, or 0 if none |
| Options.OptionLines | OptionsGenerator.cs:366-370 | One line per value; the line of value `k` announces its identifier with position `k` |
| Options.DisplayLines | OptionsGenerator.cs:384-387 | One line per value; line `k` is value `k`'s quoted display name, one level in |
| Options.ChoiceBlock | OptionsGenerator.cs:347-393 | Nothing without values; else fails iff the default is ambiguous, otherwise option lines, default and display names |
| Options.ChoiceNumbering | OptionsGenerator.cs:351-378 | Value `k` is announced at position `k`, and a default naming it uniquely gives `default = k` |
| Options.Split | OptionsGenerator.cs:447 | At least one segment, none containing a dot |
| Options.JoinSplit | OptionsGenerator.cs:447 | Joining the segments with dots gives the path back |
| Options.SplitJoin | OptionsGenerator.cs:447 | Splitting dot-free segments joined by dots gives them back |
| Options.Walk | OptionsGenerator.cs:447-458 | Following existing children segment by segment ends at a category of the tree |
| Options.Lookup | OptionsGenerator.cs:442-461 | A null path is the root; otherwise the walk of its segments |
| Options.WithChildFacts | OptionsGenerator.cs:451-454 | Adding a child keeps the tree well formed, lists the child last and maps its segment to it |
| Options.WalkGrows | OptionsGenerator.cs:449 | An existing path keeps its category when the tree grows |
| Options.LookupGrows | OptionsGenerator.cs:449 | Looking up an existing path after growth gives the same category |
| Options.WalkName | OptionsGenerator.cs:451-452 | The category a path leads to is named by its segments joined with dots |
| Options.Flatten | OptionsGenerator.cs:211-214 | Starts with the category itself; lists only it and later-created categories |
| Options.FlattenFrom | OptionsGenerator.cs:214 | The children's listings lie strictly after their parent |
| Options.FlattenBelow | OptionsGenerator.cs:211-214 | Everything listed from a category lies below it |
| Options.FlattenHas | OptionsGenerator.cs:211-214 | Everything below a category is listed from it |
| Options.FlattenDistinct | OptionsGenerator.cs:211-214 | No category is listed twice |
| Options.FlattenRoot | OptionsGenerator.cs:211-214 | Flattening the root lists every category exactly once |
| Options.ChildSegment | OptionsGenerator.cs:214 | A child's listing is one contiguous block of its parent's listing |
| Options.PreOrder | OptionsGenerator.cs:211-214 | Every category's listing is one contiguous block of the root's listing |
| Options.AncestorFirst | OptionsGenerator.cs:211-214 | A category is listed before every category below it |
| Options.Descend | OptionsGenerator.cs:447-458 | The loop of `Get`: the path exists afterwards, reached by following its segments; every category created lies on a prefix of the path, and nothing is created when the whole path existed |
| Options.CategoryTree.constructor | OptionsGenerator.cs:430-440 | The unnamed root, no settings |
| Options.CategoryTree.Get | OptionsGenerator.cs:442-461 | Returns the category the path names, named by the path; every new category lies on a prefix of the path (`CreatedOnPath`), and a path that already exists changes nothing |
| Options.CategoryTree.Add | OptionsGenerator.cs:463-464 | The setting is appended to the category its path names; every new category lies on that path |
| Options.CategoryTree.AddRange | OptionsGenerator.cs:466-469 | Every category's settings are its old ones followed by the settings filed to it, in input order; every new category lies on some setting's path |
| Python.Spaces | PythonWriter.cs:130-133 | `n` spaces for positive `n`, none otherwise |
| Python.PythonWriter.constructor | PythonWriter.cs:17 | At line start, indentation 0, nothing written |
| Python.PythonWriter.Write | PythonWriter.cs:125-157 | At line start `4 * Indent` spaces go before the character; line start again iff it was `\n`; the inserted spaces are the only addition |
| Python.PythonWriter.WriteText | PythonWriter.cs:125-140 | Writing a text character by character sends its layout and ends at line start iff its last character is `\n` |
| Python.LayoutAppend | PythonWriter.cs:125-140 | Writing two texts one after the other equals writing their concatenation |
| Python.LayoutLine | PythonWriter.cs:127-139 | A line written from line start gets the indentation once, then the line and `\n` |
| Python.LineEnd | PythonWriter.cs:136-139 | Inside a line nothing is inserted up to the line feed, after which a new line starts |
| Python.MidLine | PythonWriter.cs:127-135 | Inside a line nothing is inserted |
| Python.NoIndentNoChange | PythonWriter.cs:130-133 | At indentation 0 the output equals the input |
| Python.LayoutExample | PythonWriter.cs:127-139 | `a\n\nb` at level 1 gives `    a\n    \n    b`: an empty line also gets the indentation |
| Python.Arguments | PythonWriter.cs:186-238 | Fails with ArgumentOutOfRange iff the line length is negative |
| Python.CommandLine | PythonWriter.cs:90-94 | Fails iff the line length is negative; otherwise ends with `-` |
| Python.CommandLineRoundTrip | PythonWriter.cs:186-238 | Reading the flags back in their fixed order gives exactly the settings the formatter is meant to see |
| Python.ReadBack | PythonWriter.cs:194-217 | The value flags are read back group by group |
| Python.ReadSwitches | PythonWriter.cs:219-237 | The four switches are read back in their fixed order, then `-` |
| Python.SwitchesFirst | PythonWriter.cs:219-237 | Every tail of the switches starts with a later switch or with `-` |
| Python.ValuesFirst | PythonWriter.cs:194-217 | Every tail of the value flags starts with a later flag |
| Python.CommandLineExamples | PythonWriter.cs:244-254 | The default settings (`Python.DefaultSettings`) give `--quiet -` |
| Python.GeneratorCommandLine | GeneratorBase.cs:12-13 | The generators' settings (`Python.GeneratorSettings`, line length 120 and target py38) give the file name, `--line-length 120`, `--target-version py38`, `--quiet` and `-` |

## Left out

- Network and file I/O, YAML and CSV reading, output files (MacroSet.cs:172-192, RegionGenerator.cs:237-353 reading, LocationGenerator.cs, ItemGenerator.cs, Program.cs): the model takes the read entries, rows and regions as values.
- Esprima parsing (`ParseExpression`, MacroSet.cs:115-121): the syntax tree is a given datatype, and `Regions.WriteLogic` takes the parser as a function parameter.
- TypeScript.cs evaluation and the `dynamic` setting objects: a setting is a plain record; `CheckOverride` (OptionsGenerator.cs:116-119) is not part of this model.
- The `black` child process, its start-up, disposal and stderr decoding (PythonWriter.cs:65-123, 159-184), and async plumbing: everything is sequential.
- The `IndentedTextWriter` layered on the Python writer (TextWriterExtentions.cs:50): the printer's indentation is a mark in its output, not spaces.
- Headers and boilerplate text of MacroGenerator.cs, RegionGenerator.cs, OptionsGenerator.cs and GeneratorBase.cs, option descriptions, option groups and `WriteCategoryAsync`/`WriteDataClassAsync`.
- Printer.PrintLiteral: a numeric literal is written as its source spelling; `ToJavaScriptString` number formatting (TextWriterExtentions.cs:336) is library floating-point formatting.
- Strings.Lower: culture-sensitive casing is modelled as ASCII, and `SortedSet`/`OrderBy` string comparison as ordinal.
- Strings.StartsWith: the prefix tests of `Printer.EventName` and `Regions.StripGame` (TextWriterExtentions.cs:193, RegionGenerator.cs:194, 271-272) call `StartsWith(string)`, which compares with the current culture; the model compares character by character. Ignorable characters make the two differ: an event named `\u00ADOOT_X` (a leading soft hyphen) is kept by the source and prefixed with the game by the model, and a region `\u00ADOOT Foo` loses its tag in the source and keeps it in the model.
- Python.PythonWriter.Write: every line is modelled as ending in `\n`. Only the formatter's standard input has `NewLine = "\n"` (PythonWriter.cs:122); the writer's own `WriteLineAsync` (for example RegionGenerator.cs:190) uses `Environment.NewLine`, which is `\r\n` on Windows.
- Strings.Upper: only ASCII letters change case; `ToUpperInvariant` also maps other scripts' letters.
- Strings.IsWordChar: the regex class `\w` (ParserExtensions.cs:32, TextWriterExtentions.cs:459, OptionsGenerator.cs:424) is Unicode in .NET; the model takes ASCII letters, digits and `_`, and the `\b`/`\B` anchors follow the same class.
- Strings.IsDigit: `\d` (RegionGenerator.cs:357) matches every Unicode decimal digit; the model takes `0` to `9`.
- Strings.IsWhiteSpace: `\s` and `string.IsNullOrWhiteSpace` (MacroSet.cs:26, 149) accept all Unicode white space; the model accepts the six ASCII ones, so a macro name made of U+00A0 is refused by the source and accepted by the model.
- Tokens.Rewrite: with the ASCII `\w`, a word stops at a non-ASCII letter, so with the default map `varé` becomes `variableé`, where .NET keeps the whole word and leaves it alone.
- Casing.SnakeCase: with ASCII classes, `éA` gives `éa`, where .NET gives `é_a`.
- Regions.DropNumber: the regex `$` (RegionGenerator.cs:357) also matches before a final line feed; the model anchors at the end of the text, so `Foo 1\n` stays unchanged, where the source gives `Foo\n`.
- Macros.Letter: from the first surrogate code point on (more than 55,000 arguments) the model writes `?` where `(char)c` (MacroSet.cs:162) gives the UTF-16 code unit.
- Ast.Expr: arrow and function parameters are names, a member access's property is a name, and class members are method values. The source casts these without checking (TextWriterExtentions.cs:77-79, 274, 352, 422-423), so inputs such as `(a = 1) => a`, `x[0]` or a class field, which throw InvalidCastException there, cannot be expressed in the model.
- PrinterFacts.PrintExprSucceeds: the iff covers the narrowed syntax tree of `Ast.Expr` only; the InvalidCastException paths of those unchecked casts are not modelled.
- MacroGenerator.cs reads `Name`, `ArgsMin` and `ArgsMax` from `Missing` and the private `Macros`; the shown MacroSet.cs offers neither, so `Stubs` works on its own record of a missing macro.
- Regions.RegionWriter: the region file is modelled as a sequence of lines with the logic text abstracted per line; the exact spacing of each line is not.
- Regions.Hoist: the hoisting loop is modelled over maps, so the dictionary `Remove`/`Add` aliasing of `Region` records is not modelled.
- Options.CategoryTree: categories are positions in a sequence with a parallel list of settings, not separate objects.

## Findings

| source | as written | input that shows it | evidently intended | confidence | as-written member | corrected member |
|---|---|---|---|---|---|---|
| MacroGenerator.cs:112-113 | the `never` helper returns `True` | region logic `"false"`, written as `never` by RegionGenerator.cs:223 | `never` returns `False`, so `false` logic is never satisfied | high, not executed | Regions.FalseLogicHoldsAsWritten | Regions.LiteralLogicEvaluates |
