/** Identifier classification in the lexer's `:php` state: the word sets, the exact-case
    constant shape, the word rules that run before the identifier rule, the `if/elsif` chain of
    the identifier rule together with its memoizer updates, the memoizer updates of the
    punctuation rules, and the effective builtin-function set. */
module Classifier {
  import opened Tokens
  import opened Memoizer

  // ---------------------------------------------------------------------------------------
  // Case folding

  /** ASCII lower-casing of one character (the only case mapping this model covers). */
  function LowerChar(c: char): char
  {
    if 'A' <= c <= 'Z' then (c as int + 32) as char else c
  }

  /** `downcase`, restricted to ASCII letters. */
  function Lower(s: string): (r: string)
    ensures |r| == |s|
    ensures forall i :: 0 <= i < |s| ==> r[i] == LowerChar(s[i])
  {
    if s == [] then [] else [LowerChar(s[0])] + Lower(s[1..])
  }

  // ---------------------------------------------------------------------------------------
  // Word sets

  /** `PHP.keywords`, written as the union of five smaller displays (in the source's order),
      which the verifier handles better than one large display. */
  const Keywords: set<string> := KeywordsA + KeywordsB + KeywordsC + KeywordsD + KeywordsE

  const KeywordsA: set<string> :=
    {"old_function", "cfunction", "__class__", "__dir__", "__file__", "__function__",
     "__halt_compiler", "__line__", "__method__", "__namespace__", "__trait__"}
  const KeywordsB: set<string> :=
    {"abstract", "and", "array", "as", "break", "case", "catch", "clone", "continue", "declare",
     "default", "die", "do", "echo", "else"}
  const KeywordsC: set<string> :=
    {"elseif", "enddeclare", "endfor", "endforeach", "endif", "endswitch", "endwhile", "eval",
     "exit", "extends", "final", "finally", "fn", "for", "foreach"}
  const KeywordsD: set<string> :=
    {"global", "goto", "if", "implements", "include", "include_once", "instanceof", "insteadof",
     "list", "new", "or", "parent", "print"}
  const KeywordsE: set<string> :=
    {"private", "protected", "public", "require", "require_once", "return", "self", "static",
     "switch", "throw", "try", "var", "while", "xor", "yield"}

  /** `PHP.namespaces` */
  const Namespaces: set<string> := {"namespace", "use"}

  /** `PHP.declarations` */
  const Declarations: set<string> := {"class", "interface", "trait"}

  /** The words of the type rule `(void|\??(int|float|bool|string|iterable|self|callable))\b`,
      lower-case (the rule is case-insensitive). */
  const TypeWords: set<string> := {
    "void", "int", "float", "bool", "string", "iterable", "self", "callable",
    "?int", "?float", "?bool", "?string", "?iterable", "?self", "?callable"
  }

  /** The words of the rule `(true|false|null)\b`, lower-case (the rule is case-insensitive). */
  const LiteralConstants: set<string> := {"true", "false", "null"}

  // ---------------------------------------------------------------------------------------
  // The exact-case constant shape `(E|PHP)(_[[:upper:]]+)+\b`

  predicate IsUpper(c: char)
  {
    'A' <= c <= 'Z'
  }

  /** Every character is `_` or an upper-case letter, and every `_` is followed by an
      upper-case letter. */
  predicate WellGrouped(s: string)
  {
    (forall i :: 0 <= i < |s| ==> s[i] == '_' || IsUpper(s[i])) &&
    (forall i :: 0 <= i < |s| && s[i] == '_' ==> i + 1 < |s| && IsUpper(s[i + 1]))
  }

  /** `s` is one or more groups `_` followed by upper-case letters. */
  predicate UpperGroups(s: string)
  {
    |s| > 0 && s[0] == '_' && WellGrouped(s)
  }

  /** A whole backslash-free word segment has the exact-case constant shape. */
  predicate ConstantShape(seg: string)
  {
    (|seg| >= 1 && seg[0] == 'E' && UpperGroups(seg[1..])) ||
    (|seg| >= 3 && seg[..3] == "PHP" && UpperGroups(seg[3..]))
  }

  /** A character-by-character matcher for `(_[[:upper:]]+)+`, following the regex: after an
      `_` at least one upper-case letter is needed, after which the group may go on, or a new
      group may start. */
  function MatchGroupBody(s: string): bool
    decreases |s|
  {
    |s| > 0 && IsUpper(s[0]) && MatchGroupRest(s[1..])
  }

  function MatchGroupRest(s: string): bool
    decreases |s|
  {
    s == [] || (IsUpper(s[0]) && MatchGroupRest(s[1..])) || (s[0] == '_' && MatchGroupBody(s[1..]))
  }

  function MatchGroups(s: string): bool
  {
    |s| > 0 && s[0] == '_' && MatchGroupBody(s[1..])
  }

  lemma WellGroupedUnfold(s: string)
    requires s != []
    ensures WellGrouped(s) <==>
      (s[0] == '_' || IsUpper(s[0])) &&
      (s[0] == '_' ==> |s| > 1 && IsUpper(s[1])) &&
      WellGrouped(s[1..])
  {
    if (s[0] == '_' || IsUpper(s[0])) && (s[0] == '_' ==> |s| > 1 && IsUpper(s[1])) && WellGrouped(s[1..]) {
      forall i | 0 <= i < |s| ensures s[i] == '_' || IsUpper(s[i]) {
        if i > 0 { assert s[i] == s[1..][i - 1]; }
      }
      forall i | 0 <= i < |s| && s[i] == '_' ensures i + 1 < |s| && IsUpper(s[i + 1]) {
        if i > 0 { assert s[i] == s[1..][i - 1]; }
      }
    }
  }

  lemma {:induction false} MatchGroupRestIff(s: string)
    ensures MatchGroupRest(s) <==> WellGrouped(s)
    decreases |s|
  {
    if s != [] {
      WellGroupedUnfold(s);
      MatchGroupRestIff(s[1..]);
      if |s| > 1 {
        WellGroupedUnfold(s[1..]);
        MatchGroupRestIff(s[2..]);
        assert s[1..][1..] == s[2..];
      }
    }
  }

  /** The regex-shaped matcher and the declarative shape agree on every input. */
  lemma {:induction false} MatchGroupsIff(s: string)
    ensures MatchGroups(s) <==> UpperGroups(s)
  {
    if |s| > 0 {
      WellGroupedUnfold(s);
      if |s| > 1 {
        MatchGroupRestIff(s[2..]);
        WellGroupedUnfold(s[1..]);
        assert s[1..][1..] == s[2..];
      }
    }
  }

  // ---------------------------------------------------------------------------------------
  // The word rules that run before the identifier rule

  /** The part of a word before its first backslash. The earlier word rules end at a word
      boundary, and inside a namespaced identifier the only boundaries are its end and the
      backslashes, so those rules can only match this segment whole. */
  function FirstSegment(w: string): (seg: string)
    ensures seg <= w
    ensures '\\' !in seg
    ensures |seg| < |w| ==> w[|seg|] == '\\'
  {
    if w == [] || w[0] == '\\' then [] else [w[0]] + FirstSegment(w[1..])
  }

  /** The kind an earlier word rule gives the segment, in rule order: types, `stdClass`,
      `true`/`false`/`null`, then the exact-case constant shape; `None` when the identifier
      rule is reached. */
  function EarlyWordRule(seg: string): Option<Kind>
  {
    var low := Lower(seg);
    if low in TypeWords then Some(KeywordType)
    else if low == "stdclass" then Some(NameClass)
    else if low in LiteralConstants then Some(KeywordConstant)
    else if ConstantShape(seg) then Some(KeywordConstant)
    else None
  }

  // ---------------------------------------------------------------------------------------
  // The identifier rule

  /** The larger word sets the identifier rule looks names up in: the general keywords and
      the lexer's effective builtin set. The lexer itself always uses `PhpWords`; keeping the
      sets a value lets the statements below that do not depend on their contents stay
      independent of them. */
  datatype Words = Words(keywords: set<string>, builtins: set<string>)

  /** The lexer's word sets: `PHP.keywords` and the builtin set it was configured with. */
  function PhpWords(builtins: set<string>): Words
  {
    Words(Keywords, builtins)
  }

  /** Which branch of the identifier rule's `if/elsif` chain a lower-cased word selects,
      before the builtin test and the final `pop`. */
  datatype Branch =
    | UseKeyword | ClassKeyword | ConstKeyword | FunctionKeyword
    | NamespaceKeyword | DeclarationKeyword | LanguageKeyword
    | Identifier

  function KeywordBranch(name: string, keywords: set<string>): Branch
  {
    if name == "use" then UseKeyword
    else if name == "class" then ClassKeyword
    else if name == "const" then ConstKeyword
    else if name == "function" then FunctionKeyword
    else if name in Namespaces then NamespaceKeyword
    else if name in Declarations then DeclarationKeyword
    else if name in keywords then LanguageKeyword
    else Identifier
  }

  /** The identifier rule on the lower-cased word `name`: the emitted kind and the memoizer
      afterwards. */
  function Classify(words: Words, name: string, m: Memo): (Kind, Memo)
  {
    match KeywordBranch(name, words.keywords)
    case UseKeyword => (KeywordNamespace, Memo(Use, NameNamespace, []))
    case ClassKeyword => (KeywordDeclaration, Memo(Class, NameClass, []))
    case ConstKeyword =>
      (Keyword, if m.IsNone() then Memo(Const, NameConstant, []) else m.Push(NameConstant))
    case FunctionKeyword =>
      (Keyword, if m.IsNone() then Memo(Function, NameConstant, [NameFunction]) else m.Push(NameFunction))
    case NamespaceKeyword => (KeywordNamespace, m)
    case DeclarationKeyword => (KeywordDeclaration, m)
    case LanguageKeyword => (Keyword, m)
    case Identifier => if m.IsNone() && name in words.builtins then (NameBuiltin, m) else m.Pop()
  }

  /** The words the identifier rule tests before the keyword set. */
  predicate IsChainWord(name: string)
  {
    name == "use" || name == "class" || name == "const" || name == "function" ||
    name == "namespace" || name == "interface" || name == "trait"
  }

  lemma KeywordsANotChainWords(name: string)
    requires name in KeywordsA
    ensures !IsChainWord(name)
  {
  }

  lemma KeywordsBNotChainWords(name: string)
    requires name in KeywordsB
    ensures !IsChainWord(name)
  {
  }

  lemma KeywordsCNotChainWords(name: string)
    requires name in KeywordsC
    ensures !IsChainWord(name)
  {
  }

  lemma KeywordsDNotChainWords(name: string)
    requires name in KeywordsD
    ensures !IsChainWord(name)
  {
  }

  lemma KeywordsENotChainWords(name: string)
    requires name in KeywordsE
    ensures !IsChainWord(name)
  {
  }

  /** No general keyword is one of the words the chain compares against before the keyword
      set, so the order of the chain never hides a keyword. */
  lemma KeywordsAreNotStatementWords(name: string)
    requires name in Keywords
    ensures name != "use" && name != "class" && name != "const" && name != "function"
    ensures name != "namespace" && name != "interface" && name != "trait"
  {
    if name in KeywordsA { KeywordsANotChainWords(name); }
    else if name in KeywordsB { KeywordsBNotChainWords(name); }
    else if name in KeywordsC { KeywordsCNotChainWords(name); }
    else if name in KeywordsD { KeywordsDNotChainWords(name); }
    else { KeywordsENotChainWords(name); }
  }

  /** No word of the set is compared against earlier in the chain. */
  predicate NoChainWords(ks: set<string>)
  {
    forall k :: k in ks ==> !IsChainWord(k)
  }

  /** `PHP.keywords` holds no chain word. */
  lemma KeywordsHaveNoChainWords()
    ensures NoChainWords(Keywords)
  {
    forall k | k in Keywords ensures !IsChainWord(k) {
      KeywordsAreNotStatementWords(k);
    }
  }

  /** The precedence of the chain: use > class > const > function > namespaces > declarations >
      keywords > builtin (only with no statement) > `pop`. `use` and `class` are also in the
      namespace and declaration sets; their earlier branches are what start a statement. With
      a keyword set that holds no chain word (as `PHP.keywords` does), every keyword gets
      Keyword and leaves the memoizer alone. */
  lemma ClassifyPrecedence(words: Words, name: string, m: Memo)
    requires NoChainWords(words.keywords)
    ensures name == "use" ==> Classify(words, name, m) == (KeywordNamespace, Memo(Use, NameNamespace, []))
    ensures name == "class" ==> Classify(words, name, m) == (KeywordDeclaration, Memo(Class, NameClass, []))
    ensures name == "const" ==>
      Classify(words, name, m) ==
        (Keyword, if m.IsNone() then Memo(Const, NameConstant, []) else m.Push(NameConstant))
    ensures name == "function" ==>
      Classify(words, name, m) ==
        (Keyword, if m.IsNone() then Memo(Function, NameConstant, [NameFunction]) else m.Push(NameFunction))
    ensures name == "namespace" ==> Classify(words, name, m) == (KeywordNamespace, m)
    ensures name == "interface" || name == "trait" ==> Classify(words, name, m) == (KeywordDeclaration, m)
    ensures name in words.keywords ==> Classify(words, name, m) == (Keyword, m)
    ensures !IsChainWord(name) && name !in words.keywords && m.IsNone() && name in words.builtins ==>
      Classify(words, name, m) == (NameBuiltin, m)
    ensures !IsChainWord(name) && name !in words.keywords && !(m.IsNone() && name in words.builtins) ==>
      Classify(words, name, m) == m.Pop()
  {
    if name in words.keywords {
      assert !IsChainWord(name);
    }
  }

  /** Only `use`, `class`, `const`, `function` and the final `pop` change the memoizer. */
  lemma OnlyStatementWordsAndPopChangeMemo(words: Words, name: string, m: Memo)
    requires Classify(words, name, m).1 != m
    ensures name in {"use", "class", "const", "function"} ||
      (KeywordBranch(name, words.keywords) == Identifier && m.stack != [] && Classify(words, name, m) == m.Pop())
  {
  }

  /** `use` (in any case) starts a use statement whose bare names are namespaces. */
  lemma UseStartsUseStatement(words: Words, w: string, m: Memo)
    requires Lower(w) == "use"
    ensures Classify(words, Lower(w), m) == (KeywordNamespace, Memo(Use, NameNamespace, []))
  {
  }

  /** `class` (in any case) starts a class statement: the next bare name is a class name. */
  lemma ClassStartsClassStatement(words: Words, w: string, m: Memo)
    requires Lower(w) == "class"
    ensures Classify(words, Lower(w), m) == (KeywordDeclaration, Memo(Class, NameClass, []))
  {
  }

  /** `interface` and `trait` are declaration keywords but do not start a class statement: the
      memoizer is left as it was. */
  lemma InterfaceAndTraitKeepMemo(words: Words, w: string, m: Memo)
    requires Lower(w) in {"interface", "trait"}
    ensures Classify(words, Lower(w), m) == (KeywordDeclaration, m)
  {
  }

  /** `function` and `const` emit Keyword; with no statement they start one, inside a
      statement (a grouped `use`) they only defer a kind to the next name. */
  lemma FunctionAndConstKeywords(words: Words, w: string, m: Memo)
    requires Lower(w) in {"function", "const"}
    ensures Classify(words, Lower(w), m).0 == Keyword
    ensures Lower(w) == "function" && m.IsNone() ==>
      Classify(words, Lower(w), m).1 == Memo(Function, NameConstant, [NameFunction])
    ensures Lower(w) == "const" && m.IsNone() ==>
      Classify(words, Lower(w), m).1 == Memo(Const, NameConstant, [])
    ensures !m.IsNone() ==>
      Classify(words, Lower(w), m).1 ==
        m.Push(if Lower(w) == "function" then NameFunction else NameConstant)
  {
  }

  // ---------------------------------------------------------------------------------------
  // Memoizer updates of the punctuation rules

  /** `=`: pops only inside a function statement (a parameter's default value follows). */
  function OnEq(m: Memo): Memo
  {
    if m.statement == Function then m.Pop().1 else m
  }

  /** `,`: clears, then (inside a function statement) defers Name::Class to the next name. */
  function OnComma(m: Memo): Memo
  {
    var e := m.Empty();
    if e.statement == Function then e.Push(NameClass) else e
  }

  /** `(`: inside a function statement, drops the pending kind and defers Name::Class. */
  function OnLParen(m: Memo): Memo
  {
    var p := if m.statement == Function then m.Pop().1 else m;
    if p.statement == Function then p.Push(NameClass) else p
  }

  /** `)`: inside a function statement, defers Name::Class (a return type may follow). */
  function OnRParen(m: Memo): Memo
  {
    if m.statement == Function then m.Push(NameClass) else m
  }

  /** Outside a function statement `=`, `(` and `)` leave the memoizer alone and `,` only
      clears it; inside one they keep the statement and default and act on the stack. */
  lemma PunctuationOutsideFunction(m: Memo)
    requires m.statement != Function
    ensures OnEq(m) == m && OnLParen(m) == m && OnRParen(m) == m
    ensures OnComma(m) == Memo(m.statement, m.default, [])
  {
  }

  lemma PunctuationInsideFunction(m: Memo)
    requires m.statement == Function
    ensures OnEq(m) == m.Pop().1
    ensures OnComma(m) == Memo(Function, m.default, [NameClass])
    ensures OnLParen(m) == m.Pop().1.Push(NameClass)
    ensures OnRParen(m) == m.Push(NameClass)
    ensures OnLParen(m).statement == Function && OnLParen(m).default == m.default
    ensures |OnLParen(m).stack| == if m.stack == [] then 1 else |m.stack|
  {
  }

  /** `function (`: the pending Name::Function is dropped and only Name::Class is deferred,
      so no name of the statement becomes Name::Function. */
  lemma AnonymousFunctionDropsName(words: Words, m: Memo)
    requires m.IsNone()
    ensures OnLParen(Classify(words, "function", m).1) == Memo(Function, NameConstant, [NameClass])
  {
  }

  // ---------------------------------------------------------------------------------------
  // The effective builtin-function set

  /** One entry of the builtin registry: a module and the function names it provides. */
  datatype Module = Module(name: string, functions: set<string>)

  /** The union of the function sets of the modules not in `disabled`. */
  function Enabled(registry: seq<Module>, disabled: seq<string>): set<string>
    decreases |registry|
  {
    if registry == [] then {}
    else
      var last := registry[|registry| - 1];
      Enabled(registry[..|registry| - 1], disabled) + (if last.name in disabled then {} else last.functions)
  }

  /** A name is enabled exactly when some module that is not disabled provides it. */
  lemma {:induction false} EnabledMembers(registry: seq<Module>, disabled: seq<string>, f: string)
    ensures f in Enabled(registry, disabled) <==>
      exists j :: 0 <= j < |registry| && registry[j].name !in disabled && f in registry[j].functions
    decreases |registry|
  {
    if registry != [] {
      var init := registry[..|registry| - 1];
      EnabledMembers(init, disabled, f);
      if f in Enabled(registry, disabled) {
        if f in Enabled(init, disabled) {
          var j :| 0 <= j < |init| && init[j].name !in disabled && f in init[j].functions;
          assert registry[j] == init[j];
        }
      } else {
        forall j | 0 <= j < |registry| && registry[j].name !in disabled
          ensures f !in registry[j].functions
        {
          if j < |init| { assert registry[j] == init[j]; }
        }
      }
    }
  }

  /** The `Set.new.tap { ... merge ... }` loop of `builtins`: merges the function sets of the
      modules that are not disabled. */
  method MergeBuiltins(registry: seq<Module>, disabled: seq<string>) returns (builtins: set<string>)
    ensures builtins == Enabled(registry, disabled)
    ensures forall f :: f in builtins <==>
      exists j :: 0 <= j < |registry| && registry[j].name !in disabled && f in registry[j].functions
  {
    builtins := {};
    var i := 0;
    while i < |registry|
      invariant 0 <= i <= |registry|
      invariant builtins == Enabled(registry[..i], disabled)
    {
      var m := registry[i];
      assert registry[..i + 1][..i] == registry[..i];
      if m.name !in disabled {
        builtins := builtins + m.functions;
      }
      i := i + 1;
    }
    assert registry[..i] == registry;
    forall f
      ensures f in builtins <==>
        exists j :: 0 <= j < |registry| && registry[j].name !in disabled && f in registry[j].functions
    {
      EnabledMembers(registry, disabled, f);
    }
  }
}
