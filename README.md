# PHP lexer: identifier classification and mode stack

A Dafny model of the stateful core of Rouge's PHP lexer (`Rouge::Lexers::PHP`). Rouge is a syntax
highlighter. The model covers:

- the memoizer (`PHP::Stack`), which remembers which statement the scan is in and which
  kinds the next names should get;
- the rule actions of the `:php` state that read and write the memoizer: `?>`, `=`, `\{`,
  `;`/`{`, `,`, `(`, `)`, and the `if/elsif` chain of the identifier rule;
- the word rules that run before the identifier rule: types, `stdClass`, `true`/`false`/`null`
  and the exact-case constant shape `(E|PHP)(_[[:upper:]]+)+\b`;
- the effective builtin-function set, with its cache and the `disabledmodules`/`funcnamehighlighting`
  options;
- the mode stack: `start`, the `:root` fallback, `:template`, `:php`, `:string`,
  `:interp_double` and `:interp_single`.

The regex layer is abstracted. A scan is a sequence of `Lexeme`s, each naming the rule that
matched and carrying its text. `Scanner.Step` applies that rule's action in the mode on top of
the stack: it emits tokens, updates the memoizer and pushes or pops modes. `Scanner.Run` folds
`Step` over a sequence.

Modules:

- `Tokens`: token kinds and tokens.
- `Memoizer`: the memoizer as a value (`Memo`) and as the mutable object (`class Stack`).
- `Classifier`: the word sets, the constant shape, the earlier word rules, the identifier rule
  (`Classify`), the punctuation updates (`OnEq`, `OnComma`, `OnLParen`, `OnRParen`) and the
  builtin set.
- `Scanner`: modes, lexemes, `Step`, `Run` and `Lex`.
- `Properties`: what the scanner promises, stated over `Step` and `Run`.
- `Lexer`: the lexer object (`class PhpLexer`). Its methods mutate the memoizer and the mode
  stack in place, and each is proved equal to the function that specifies it.

The identifier rule is parametrised by its two large word sets (`Classifier.Words`). The lexer
always uses `PHP.keywords` and its effective builtin set. Statements that do not depend on the
sets' contents hold for any sets. Statements that do depend on them require what
`Classifier.KeywordsHaveNoChainWords` proves of `PHP.keywords`.

## Model

| member | source | states |
|---|---|---|
| Memoizer.PopYieldsTopOrDefault | lib/rouge/lexers/php.rb:53-56 | `pop` yields the most recently pushed kind, or the default on an empty stack; it never fails and never changes the statement or the default |
| Memoizer.PushThenPop | lib/rouge/lexers/php.rb:48-56 | `push(k)` then `pop` yields `k` and restores the memoizer |
| Memoizer.PopThenPush | lib/rouge/lexers/php.rb:48-56 | on a non-empty stack, pushing back what `pop` returned restores the memoizer |
| Memoizer.EmptyClearsOnlyStack | lib/rouge/lexers/php.rb:58-61 | `empty` clears the stack only, so a later `pop` falls back to the default |
| Memoizer.Stack.constructor | lib/rouge/lexers/php.rb:22-24 | a new memoizer is in the reset state: no statement, nothing deferred, default Name::Other |
| Memoizer.Stack.Set | lib/rouge/lexers/php.rb:26-31 | `set` replaces all three fields |
| Memoizer.Stack.Reset | lib/rouge/lexers/php.rb:41-46 | after `reset`, `none?` holds, the stack is empty and the default is Name::Other |
| Memoizer.Stack.Push | lib/rouge/lexers/php.rb:48-51 | `push` appends to the stack and leaves statement and default |
| Memoizer.Stack.Pop | lib/rouge/lexers/php.rb:53-56 | `pop` removes and returns the top, or returns the default on an empty stack; the object's new state is `Memo.Pop` of the old one |
| Memoizer.Stack.Empty | lib/rouge/lexers/php.rb:58-61 | `empty` clears the stack and keeps statement and default |
| Classifier.Lower | lib/rouge/lexers/php.rb:225 | `downcase` keeps the length and lower-cases each character |
| Classifier.MatchGroupRestIff | lib/rouge/lexers/php.rb:217 | the regex-shaped matcher for the tail of `(_[[:upper:]]+)+` accepts exactly the well-grouped strings |
| Classifier.MatchGroupsIff | lib/rouge/lexers/php.rb:217 | the regex-shaped matcher for `(_[[:upper:]]+)+` agrees with the declarative `UpperGroups` on every input |
| Classifier.FirstSegment | lib/rouge/lexers/php.rb:98-99 | the part of a word before its first backslash is a backslash-free prefix, followed by a backslash or the end |
| Classifier.KeywordsAreNotStatementWords | lib/rouge/lexers/php.rb:117-127 | no word of `PHP.keywords` is one of the words the chain compares against before the keyword set |
| Classifier.KeywordsHaveNoChainWords | lib/rouge/lexers/php.rb:117-127 | `PHP.keywords` holds no chain word, so the order of the chain never hides a keyword |
| Classifier.ClassifyPrecedence | lib/rouge/lexers/php.rb:228-263 | the precedence use > class > const > function > namespaces > declarations > keywords > builtin (only when `none?`) > `pop`, as the kind and memoizer each branch yields (the `use` and `class` branches, not the namespace and declaration sets, start their statements) |
| Classifier.OnlyStatementWordsAndPopChangeMemo | lib/rouge/lexers/php.rb:228-263 | only `use`, `class`, `const`, `function` and the final `pop` on a non-empty stack change the memoizer |
| Classifier.UseStartsUseStatement | lib/rouge/lexers/php.rb:228-230 | `use` in any case gives Keyword::Namespace and the state (`:use`, Name::Namespace, []) |
| Classifier.ClassStartsClassStatement | lib/rouge/lexers/php.rb:234-236 | `class` in any case gives Keyword::Declaration and the state (`:class`, Name::Class, []) |
| Classifier.InterfaceAndTraitKeepMemo | lib/rouge/lexers/php.rb:255-256 | `interface` and `trait` give Keyword::Declaration and leave the memoizer unchanged |
| Classifier.FunctionAndConstKeywords | lib/rouge/lexers/php.rb:237-252 | `function` and `const` give Keyword; with no statement they set (`:function`, Name::Constant, [Name::Function]) or (`:const`, Name::Constant, []); otherwise they only push Name::Function or Name::Constant |
| Classifier.PunctuationOutsideFunction | lib/rouge/lexers/php.rb:180-212 | outside a function statement `=`, `(` and `)` leave the memoizer unchanged and `,` only clears the stack |
| Classifier.PunctuationInsideFunction | lib/rouge/lexers/php.rb:180-212 | inside a function statement `=` pops, `,` clears then pushes Name::Class, `(` pops then pushes Name::Class, and `)` pushes Name::Class |
| Classifier.AnonymousFunctionDropsName | lib/rouge/lexers/php.rb:201-207 | after `function (` no Name::Function is pending, only Name::Class |
| Classifier.EnabledMembers | lib/rouge/lexers/php.rb:83-88 | a name is in the merged set iff some module that is not disabled provides it |
| Classifier.MergeBuiltins | lib/rouge/lexers/php.rb:83-88 | the merging loop yields exactly the functions of the modules that are not disabled |
| Scanner.StartIsWellFormed | lib/rouge/lexers/php.rb:101-111 | `start_inline` true leaves `:php` on top, false `:template`, `:guess` `:root`; every start stack is well formed |
| Scanner.PushKeepsWellFormed | lib/rouge/lexers/php.rb:149-153 | pushing a mode its enclosing mode may push keeps the stack's shape |
| Scanner.PopKeepsWellFormed | lib/rouge/lexers/php.rb:158-162 | popping a stack above `:root` keeps its shape |
| Scanner.WellFormedLayout | lib/rouge/lexers/php.rb:144-155 | on a reachable stack `:root` is only at the bottom, `:template` only just above it, and the code modes higher still |
| Scanner.WordLexemes | lib/rouge/lexers/php.rb:178-224 | the word rules split an identifier-shaped span into lexemes that cover it exactly |
| Scanner.CodeStep | lib/rouge/lexers/php.rb:157-280 | the code rules keep the mode stack well formed and never pop below `:template` |
| Scanner.StringStep | lib/rouge/lexers/php.rb:282-297 | the `:string` rules keep the mode stack well formed |
| Scanner.TemplateStep | lib/rouge/lexers/php.rb:152-155 | the `:template` rules keep the mode stack well formed |
| Scanner.EnterCode | lib/rouge/lexers/php.rb:149 | in `:root` the empty fallback rule pushes `:template` and `:php`; in a code mode it changes nothing; the memoizer is untouched |
| Scanner.Step | lib/rouge/lexers/php.rb:144-307 | every step keeps the mode stack well formed |
| Scanner.Run | lib/rouge/lexers/php.rb:144-307 | a whole scan keeps the mode stack well formed |
| Properties.StepInCode | lib/rouge/lexers/php.rb:299-307 | the interpolation states run the code rules for everything but their closing brace(s) |
| Properties.WordStep | lib/rouge/lexers/php.rb:224-266 | a word emits one token of the kind `Classify` gives its lower-case form, with its original text |
| Properties.CodeStepCovers | lib/rouge/lexers/php.rb:157-280 | the tokens of a code rule cover exactly its lexeme's text |
| Properties.StringStepCovers | lib/rouge/lexers/php.rb:282-297 | the tokens of a `:string` rule cover exactly its lexeme's text |
| Properties.StepCovers | lib/rouge/lexers/php.rb:144-307 | every step's tokens cover exactly its lexeme's text |
| Properties.RunCovers | lib/rouge/lexers/php.rb:144-307 | the emitted token texts, concatenated in order, are exactly the scanned input |
| Properties.BoundariesReset | lib/rouge/lexers/php.rb:158-194 | `;`, `{` and `?>` emit their token and reset the memoizer; only `?>` pops a mode |
| Properties.NamespaceBraceKeepsStatement | lib/rouge/lexers/php.rb:186-190 | `\{` emits Name::Namespace and Punctuation and changes nothing, so a grouped `use` goes on |
| Properties.BareNameInStatement | lib/rouge/lexers/php.rb:259-263 | inside a statement a bare name gets the pending kind, or the default |
| Properties.UsePartStep | lib/rouge/lexers/php.rb:180-263 | inside a `use` statement bare names, the keywords other than `use`/`class`/`const`/`function`, `=`, commas, parentheses, `\{`, `}` and whitespace, comment, variable, operator and type lexemes leave the statement as it is, and a bare name is Name::Namespace |
| Properties.UseStatementNames | lib/rouge/lexers/php.rb:180-263 | inside a `use` statement every bare name is Name::Namespace, and the statement stays as it is, over any run of the lexemes `UsePartStep` admits; the resets `;`, `{` and `?>` are not among them |
| Properties.UseTokensOnePerLexeme | lib/rouge/lexers/php.rb:180-263 | without `\{`, a `use` statement gives exactly one token per lexeme, the one the lexeme gets on its own |
| Properties.ClosureUseReturnType | lib/rouge/lexers/php.rb:201-263 | in a closure's `use ($v): Foo` the return type `Foo` is Name::Namespace (the `use` statement is still in force) |
| Properties.UseWordStep | lib/rouge/lexers/php.rb:228-230 | `use` in any case emits Keyword::Namespace and starts a use statement |
| Properties.UseThenNames | lib/rouge/lexers/php.rb:228-263 | `use` followed by names, commas and keywords gives Keyword::Namespace and then Name::Namespace for every bare name (`Use Class1, Class2;`) |
| Properties.ClassWordStep | lib/rouge/lexers/php.rb:234-236 | `class` in any case emits Keyword::Declaration and starts a class statement |
| Properties.ClassThenName | lib/rouge/lexers/php.rb:234-263 | `class A` gives Keyword::Declaration and then Name::Class |
| Properties.FunctionWordStep | lib/rouge/lexers/php.rb:245-252 | `function` with no statement emits Keyword and leaves Name::Function pending |
| Properties.FunctionThenName | lib/rouge/lexers/php.rb:245-263 | `function foo` gives Keyword and then Name::Function, and later names default to Name::Constant |
| Properties.AnonymousFunction | lib/rouge/lexers/php.rb:201-207 | `function (A` gives Keyword, Punctuation, then Name::Class for the parameter type |
| Properties.UseFunctionName | lib/rouge/lexers/php.rb:245-252 | inside a `use` statement `function x` names `x` Name::Function, then the statement goes on unchanged |
| Properties.UseConstName | lib/rouge/lexers/php.rb:237-244 | inside a `use` statement `const x` names `x` Name::Constant, then the statement goes on unchanged |
| Properties.InterfaceThenName | lib/rouge/lexers/php.rb:253-263 | `interface A` / `trait A` at a statement start gives Keyword::Declaration and then Name::Other for a non-builtin `A` |
| Properties.PhpEolIsConstant | lib/rouge/lexers/php.rb:217 | `PHP_EOL` has the exact-case constant shape |
| Properties.LowerCaseGroupIsNotConstant | lib/rouge/lexers/php.rb:217 | `E_user_DEPRECATED` does not have it: the shape is case-sensitive |
| Properties.TrailingUnderscoreIsNotConstant | lib/rouge/lexers/php.rb:217 | `PHP_EOL_` does not have it: a trailing `_` starts no group |
| Properties.ConstantShapedWord | lib/rouge/lexers/php.rb:178-217 | a backslash-free word of the constant shape is one Keyword::Constant token; no earlier word rule takes it |
| Properties.LongWordReachesIdentifier | lib/rouge/lexers/php.rb:178-224 | a backslash-free word longer than 9 characters without the constant shape reaches the identifier rule whole |
| Properties.PhpEolWord | lib/rouge/lexers/php.rb:217 | `PHP_EOL` is one Keyword::Constant token |
| Properties.NearMissWord | lib/rouge/lexers/php.rb:217-224 | `E_user_DEPRECATED` reaches the identifier rule whole |
| Properties.TypeWordBeforeBackslash | lib/rouge/lexers/php.rb:178 | in `int\Foo` the type rule takes `int` and the identifier rule gets `\Foo` |
| Properties.StdClassAnyCase | lib/rouge/lexers/php.rb:215 | `stdClass` in any case is one Name::Class token |
| Properties.StatementKeywordsReachIdentifier | lib/rouge/lexers/php.rb:178-224 | `use`, `class`, `const` and `function` in any case are taken by no earlier word rule |
| Properties.RootFallback | lib/rouge/lexers/php.rb:144-150 | with `:guess` the stack is `:root`; a delegated span pushes `:template`; anything else is scanned as in `:php` above a pushed `:template` |
| Properties.OpenThenCloseTag | lib/rouge/lexers/php.rb:153-162 | an open tag pushes `:php` and `?>` pops back to `:template` with a reset memoizer |
| Properties.StringBodyKeepsState | lib/rouge/lexers/php.rb:284 | plain string pieces change neither the modes nor the memoizer |
| Properties.StringTail | lib/rouge/lexers/php.rb:283-284 | the rest of a string through its closing `"` emits its pieces and the quote, and pops `:string` |
| Properties.StringRoundTrip | lib/rouge/lexers/php.rb:279-284 | `"` pushes `:string` and the closing `"` pops it, leaving the modes and the memoizer as they were |
| Properties.InterpolationOpens | lib/rouge/lexers/php.rb:290-291 | `{${` pushes `:interp_double`; `{` before `$` pushes `:interp_single` |
| Properties.InterpolationCloses | lib/rouge/lexers/php.rb:299-306 | `}}` pops `:interp_double` and `}` pops `:interp_single`, back to the string |
| Properties.SingleBraceInDoubleInterpolation | lib/rouge/lexers/php.rb:299-302 | a single `}` in `:interp_double` is code Punctuation and the mode stays |
| Properties.CloseTagInsideInterpolation | lib/rouge/lexers/php.rb:158-162 | `?>` inside `:interp_double` or `:interp_single` pops the interpolation state, not `:php`, and resets the memoizer |
| Lexer.PhpLexer.constructor | lib/rouge/lexers/php.rb:64-73 | records the options, creates a fresh memoizer, leaves the builtin cache empty |
| Lexer.PhpLexer.EffectiveBuiltins | lib/rouge/lexers/php.rb:80-89 | empty when function-name highlighting is off; otherwise exactly the functions of the modules that are not disabled |
| Lexer.PhpLexer.Builtins | lib/rouge/lexers/php.rb:80-89 | returns the effective set; with highlighting on the cache holds that set afterwards, with it off the cache is untouched |
| Lexer.PhpLexer.ResetToken | lib/rouge/lexers/php.rb:91-93 | `reset_token` leaves the memoizer in the reset state |
| Lexer.PhpLexer.ClassifyWord | lib/rouge/lexers/php.rb:224-266 | the chain's kind and the memoizer's new state are what `Classify` gives |
| Lexer.PhpLexer.ClassifyName | lib/rouge/lexers/php.rb:259-263 | a builtin name only when no statement is in progress, otherwise the memoizer's `pop` |
| Lexer.PhpLexer.CodeRule | lib/rouge/lexers/php.rb:157-280 | the code rules' tokens and new state are what `CodeStep` gives |
| Lexer.PhpLexer.StringRule | lib/rouge/lexers/php.rb:282-297 | the `:string` rules' tokens and new state are what `StringStep` gives |
| Lexer.PhpLexer.TemplateRule | lib/rouge/lexers/php.rb:152-155 | the `:template` rules' tokens and new state are what `TemplateStep` gives |
| Lexer.PhpLexer.EnterCodeRule | lib/rouge/lexers/php.rb:149 | the `:root` fallback followed by the code rules, as `EnterCode` and `CodeStep` give |
| Lexer.PhpLexer.StepOnce | lib/rouge/lexers/php.rb:144-307 | one scanning step's tokens and new state are what `Step` gives |
| Lexer.PhpLexer.Lex | lib/rouge/lexers/php.rb:101-111 | the stack is reset to `:root` plus what `start` pushes; the scan then emits what `Scanner.Lex` specifies |

## Where the code and its tests differ

The model follows the code. Its lemmas state what the code does on the inputs where
`spec/lexers/php_spec.rb` expects something else:

- `interface A {}` / `trait A {}`: the test at `spec/lexers/php_spec.rb:49` expects
  Name::Class for `A`. Lines 255-256 emit Keyword::Declaration without `set`, so `A` gets the
  default, Name::Other (`Properties.InterfaceThenName`).
- `Use Function x;` and `Use Const x;`: the tests at `spec/lexers/php_spec.rb:66-68` expect
  Name::Namespace. Lines 242 and 250 push Name::Constant and Name::Function, so `x` gets
  those kinds (`Properties.UseFunctionName`, `Properties.UseConstName`).
- `As`: the alias branch is commented out (lines 231-233). `as` is a plain keyword and the name
  after it is still Name::Namespace (`Properties.UseStatementNames`).
- `\{` and the commas and `}` of a grouped `use`: the tests expect Operator. Lines 188-200
  and 213 give Name::Namespace plus Punctuation, and Punctuation
  (`Properties.NamespaceBraceKeepsStatement`).

## Left out

- The regex layer and the `RegexLexer`/`TemplateLexer` framework: rule matching, `groups`,
  `mixin` and `delegate`. The model starts from recognised lexemes. A rule that emits several
  groups appears as several `Fixed` lexemes. Every other rule of a fixed kind appears as
  `Fixed`: whitespace (line 168), comments, heredocs, numbers, variables, operators and `?`
  (lines 268-269), `[` and `]` (line 213), single-quoted and backtick strings (lines 277-278),
  the `->`/`::` attribute and `yield from` rules, and the pieces of a double-quoted string other than
  the quote and the interpolation openers (lines 285-288 and 292-296).
- The `:root` lookahead heuristics (lines 146-147) and the parent HTML lexer: a span they
  delegate is a `HostText` lexeme and becomes one `Delegated` token.
- Loading `php/builtins.rb` (lines 75-78) is file I/O. The module registry is a constructor
  parameter.
- Option parsing (lines 70-72), the metadata (lines 7-19) and `detect?` (lines 138-142) belong
  to the framework.
- The driver's no-match fallback: a lexeme no rule of the current mode accepts becomes one
  Error token covering its whole text. The driver, which is not part of this model, emits one
  Error token per character.
- Scanner.Lex: the memoizer carries over from whatever the lexer object last saw, because
  only `reset_token` (lines 91-93) resets it between scans and its caller is not part of this
  model.
- Classifier.Lower: ASCII only. Ruby's `downcase` also folds non-ASCII letters, and the
  identifier rule's `\p{L}` classes and `[[:upper:]]` are Unicode-aware; the model's
  `IsUpper` is `A`-`Z`.
- Scanner.Step: the Ruby `pop!` on a stack holding only `:root` cannot happen on a reachable
  stack (`Scanner.WellFormed`), so it is not modelled.
- Properties.UseStatementNames: stated for `:php` on top. In `:interp_single` a `}` would
  close the interpolation instead.
- Lexer.PhpLexer: `PHP.keywords` is a constant field set by the constructor, not a class
  method, and the builtin cache is an `Option` field.
