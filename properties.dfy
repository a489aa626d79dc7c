/** What the scanner promises, stated over `Step` and `Run`: every input character is covered
    exactly once, statement boundaries reset the memoizer, `use`/`class`/`function` decide how
    the following bare names are classified, and the mode stack is pushed and popped in pairs. */
module Properties {
  import opened Tokens
  import opened Memoizer
  import opened Classifier
  import opened Scanner

  // ---------------------------------------------------------------------------------------
  // Unfolding `Run` one lexeme at a time

  lemma RunCons(words: Words, s: LexState, lx: Lexeme, rest: seq<Lexeme>)
    requires WellFormed(s.modes)
    ensures Run(words, s, [lx] + rest) ==
      (Step(words, s, lx).0 + Run(words, Step(words, s, lx).1, rest).0,
       Run(words, Step(words, s, lx).1, rest).1)
  {
    assert ([lx] + rest)[0] == lx;
    assert ([lx] + rest)[1..] == rest;
  }

  lemma RunOne(words: Words, s: LexState, lx: Lexeme)
    requires WellFormed(s.modes)
    ensures Run(words, s, [lx]) == Step(words, s, lx)
  {
    RunCons(words, s, lx, []);
    assert [lx] + [] == [lx];
    var (ts, s') := Step(words, s, lx);
    assert Run(words, s', []) == ([], s');
    assert ts + [] == ts;
  }

  /** Two steps in a row, given their results. */
  lemma RunPair(words: Words, s: LexState, a: Lexeme, b: Lexeme,
                ta: seq<Token>, sa: LexState, tb: seq<Token>, sb: LexState)
    requires WellFormed(s.modes) && WellFormed(sa.modes)
    requires Step(words, s, a) == (ta, sa) && Step(words, sa, b) == (tb, sb)
    ensures Run(words, s, [a, b]) == (ta + tb, sb)
  {
    RunCons(words, s, a, [b]);
    assert [a] + [b] == [a, b];
    RunOne(words, sa, b);
  }

  /** Three steps in a row, given their results. */
  lemma RunTriple(words: Words, s: LexState, a: Lexeme, b: Lexeme, c: Lexeme,
                  ta: seq<Token>, sa: LexState, tb: seq<Token>, sb: LexState, tc: seq<Token>, sc: LexState)
    requires WellFormed(s.modes) && WellFormed(sa.modes) && WellFormed(sb.modes)
    requires Step(words, s, a) == (ta, sa) && Step(words, sa, b) == (tb, sb) && Step(words, sb, c) == (tc, sc)
    ensures Run(words, s, [a, b, c]) == (ta + tb + tc, sc)
  {
    RunCons(words, s, a, [b, c]);
    assert [a] + [b, c] == [a, b, c];
    RunPair(words, sa, b, c, tb, sb, tc, sc);
    assert ta + (tb + tc) == ta + tb + tc;
  }

  /** In a code mode every lexeme but the one closing an interpolation goes to the code rules. */
  lemma StepInCode(words: Words, s: LexState, lx: Lexeme)
    requires WellFormed(s.modes) && IsCodeMode(Top(s.modes))
    requires !(Top(s.modes) == InterpDouble && lx.RBraces?)
    requires !(Top(s.modes) == InterpSingle && lx.RBrace?)
    ensures Step(words, s, lx) == CodeStep(words, s, lx)
  {
  }

  /** A word is classified whole by the identifier rule. */
  lemma WordStep(words: Words, s: LexState, w: string)
    requires WellFormed(s.modes) && IsCodeMode(Top(s.modes))
    ensures var (k, m) := Classify(words, Lower(w), s.memo);
      Step(words, s, Word(w)) == ([Token(k, w)], s.(memo := m))
  {
    StepInCode(words, s, Word(w));
  }

  /** Scanning a sequence position by position: once the tokens of `lxs[..i]` are emitted
      and the state is `before`, scanning `lxs[i]` extends the emitted tokens and leaves the
      rest to scan from the new state. */
  lemma RunAdvance(words: Words, s0: LexState, lxs: seq<Lexeme>, i: nat, acc: seq<Token>,
                   before: LexState, step: seq<Token>, after: LexState)
    requires WellFormed(s0.modes) && WellFormed(before.modes) && i < |lxs|
    requires Step(words, before, lxs[i]) == (step, after)
    requires Run(words, s0, lxs) == (acc + Run(words, before, lxs[i..]).0, Run(words, before, lxs[i..]).1)
    ensures Run(words, s0, lxs) == (acc + step + Run(words, after, lxs[i + 1..]).0, Run(words, after, lxs[i + 1..]).1)
  {
    RunCons(words, before, lxs[i], lxs[i + 1..]);
    assert [lxs[i]] + lxs[i + 1..] == lxs[i..];
    var rest := Run(words, after, lxs[i + 1..]).0;
    assert acc + (step + rest) == acc + step + rest;
  }

  // ---------------------------------------------------------------------------------------
  // Coverage: the emitted token texts reconstruct the input

  lemma TextsSingle(t: Token)
    ensures Texts([t]) == t.text
  {
    assert [t][1..] == [];
  }

  lemma TextsPair(t: Token, u: Token)
    ensures Texts([t, u]) == t.text + u.text
  {
    assert [t, u][1..] == [u];
    TextsSingle(u);
  }

  lemma CodeStepCovers(words: Words, s: LexState, lx: Lexeme)
    requires WellFormed(s.modes) && IsCodeMode(Top(s.modes))
    ensures Texts(CodeStep(words, s, lx).0) == lx.Source()
  {
    var ts := CodeStep(words, s, lx).0;
    if lx.NsBrace? {
      TextsPair(ts[0], ts[1]);
      assert ts == [ts[0], ts[1]];
    } else {
      TextsSingle(ts[0]);
      assert ts == [ts[0]];
    }
  }

  lemma StringStepCovers(s: LexState, lx: Lexeme)
    requires WellFormed(s.modes) && Top(s.modes) == Str
    ensures Texts(StringStep(s, lx).0) == lx.Source()
  {
    var ts := StringStep(s, lx).0;
    TextsSingle(ts[0]);
    assert ts == [ts[0]];
  }

  /** One step covers exactly the text of its lexeme. */
  lemma StepCovers(words: Words, s: LexState, lx: Lexeme)
    requires WellFormed(s.modes)
    ensures Texts(Step(words, s, lx).0) == lx.Source()
  {
    var ms := s.modes;
    WellFormedLayout(ms, |ms| - 1);
    match Top(ms)
    case Root =>
      if lx.HostText? {
        TextsSingle(Token(Delegated, lx.text));
      } else {
        PushKeepsWellFormed(ms, Template);
        PushKeepsWellFormed(ms + [Template], Php);
        assert ms + [Template] + [Php] == ms + [Template, Php];
        CodeStepCovers(words, s.(modes := ms + [Template, Php]), lx);
      }
    case Template =>
      TextsSingle(Step(words, s, lx).0[0]);
      assert Step(words, s, lx).0 == [Step(words, s, lx).0[0]];
    case Php => CodeStepCovers(words, s, lx);
    case Str => StringStepCovers(s, lx);
    case InterpDouble =>
      if lx.RBraces? {
        TextsSingle(Token(StrInterpol, "}}"));
      } else {
        CodeStepCovers(words, s, lx);
      }
    case InterpSingle =>
      if lx.RBrace? {
        TextsSingle(Token(StrInterpol, "}"));
      } else {
        CodeStepCovers(words, s, lx);
      }
  }

  /** The concatenation of all emitted token texts, in emission order, is exactly the input. */
  lemma {:induction false} RunCovers(words: Words, s: LexState, lxs: seq<Lexeme>)
    requires WellFormed(s.modes)
    ensures Texts(Run(words, s, lxs).0) == Sources(lxs)
    decreases |lxs|
  {
    if lxs != [] {
      var (ts, s') := Step(words, s, lxs[0]);
      StepCovers(words, s, lxs[0]);
      RunCovers(words, s', lxs[1..]);
      TextsAppend(ts, Run(words, s', lxs[1..]).0);
    }
  }

  // ---------------------------------------------------------------------------------------
  // Statement boundaries

  /** `;`, `{` and `?>` emit their token and reset the memoizer; only `?>` changes the modes. */
  lemma BoundariesReset(words: Words, s: LexState, lx: Lexeme)
    requires WellFormed(s.modes) && IsCodeMode(Top(s.modes))
    requires lx == Semi || lx == LBrace || lx == CloseTag
    ensures Step(words, s, lx).1.memo == Fresh
    ensures Step(words, s, lx).0 == [Token(if lx == CloseTag then CommentPreproc else Punctuation, lx.Source())]
    ensures lx != CloseTag ==> Step(words, s, lx).1.modes == s.modes
    ensures lx == CloseTag ==> Step(words, s, lx).1.modes == Popped(s.modes)
  {
  }

  /** `\{` is matched before `{`: it emits a namespace separator and a brace, and leaves the
      memoizer (and the modes) as they were, so a grouped `use` goes on. */
  lemma NamespaceBraceKeepsStatement(words: Words, s: LexState)
    requires WellFormed(s.modes) && IsCodeMode(Top(s.modes))
    ensures Step(words, s, NsBrace) == ([Token(NameNamespace, "\\"), Token(Punctuation, "{")], s)
  {
  }

  // ---------------------------------------------------------------------------------------
  // Statement contexts

  /** A word the identifier rule matched that reaches its final `pop`: it is none of the
      keywords. */
  predicate BareName(words: Words, w: string)
  {
    KeywordBranch(Lower(w), words.keywords) == Identifier
  }

  /** Inside a statement a bare name takes the deferred kind, or the default. */
  lemma BareNameInStatement(words: Words, s: LexState, w: string)
    requires WellFormed(s.modes) && IsCodeMode(Top(s.modes))
    requires BareName(words, w) && !s.memo.IsNone()
    ensures Step(words, s, Word(w)) == ([Token(s.memo.Pop().0, w)], s.(memo := s.memo.Pop().1))
  {
  }

  /** The fixed-kind lexemes that may sit inside a `use` statement: whitespace, comments, the
      variables and `:` of a closure's `use (...)` clause, and type words. */
  predicate UseFixedKind(k: Kind)
  {
    k == Text || k == CommentSingle || k == CommentMultiline || k == CommentDoc ||
    k == NameVariable || k == Operator || k == KeywordType
  }

  /** The lexemes a `use` statement is made of, up to its end: bare names, the keywords that
      leave the memoizer alone (`as`, `namespace`, `interface`, ...), commas, `=`, parentheses,
      the braces of a grouped `use`, and whitespace, comments, variables, operators and type
      words. */
  predicate UseStatementPart(words: Words, lx: Lexeme)
  {
    match lx
    case Word(w) =>
      var b := KeywordBranch(Lower(w), words.keywords);
      b == Identifier || b == NamespaceKeyword || b == DeclarationKeyword || b == LanguageKeyword
    case Comma => true
    case Eq => true
    case LParen => true
    case RParen => true
    case NsBrace => true
    case RBrace => true
    case Fixed(k, _) => UseFixedKind(k)
    case _ => false
  }

  /** The kind a word gets inside a `use` statement: a bare name is a namespace. */
  function UseWordKind(b: Branch): Kind
  {
    match b
    case NamespaceKeyword => KeywordNamespace
    case DeclarationKeyword => KeywordDeclaration
    case LanguageKeyword => Keyword
    case _ => NameNamespace
  }

  /** The tokens one such lexeme gets inside a `use` statement. */
  function UsePartTokens(words: Words, lx: Lexeme): seq<Token>
    requires UseStatementPart(words, lx)
  {
    match lx
    case Word(w) => [Token(UseWordKind(KeywordBranch(Lower(w), words.keywords)), w)]
    case Comma => [Token(Punctuation, ",")]
    case Eq => [Token(Operator, "=")]
    case LParen => [Token(Punctuation, "(")]
    case RParen => [Token(Punctuation, ")")]
    case NsBrace => [Token(NameNamespace, "\\"), Token(Punctuation, "{")]
    case RBrace => [Token(Punctuation, "}")]
    case Fixed(k, t) => [Token(k, t)]
  }

  function UseStatementTokens(words: Words, lxs: seq<Lexeme>): seq<Token>
    requires forall i :: 0 <= i < |lxs| ==> UseStatementPart(words, lxs[i])
  {
    if lxs == [] then []
    else
      assert UseStatementPart(words, lxs[0]);
      UsePartTokens(words, lxs[0]) + UseStatementTokens(words, lxs[1..])
  }

  /** One lexeme of a `use` statement emits its tokens and leaves the statement as it is. */
  lemma UsePartStep(words: Words, s: LexState, lx: Lexeme)
    requires WellFormed(s.modes) && Top(s.modes) == Php
    requires s.memo == Memo(Use, NameNamespace, []) && UseStatementPart(words, lx)
    ensures Step(words, s, lx) == (UsePartTokens(words, lx), s)
  {
    StepInCode(words, s, lx);
  }

  /** Inside a `use` statement, every bare name until the next reset is Name::Namespace, and the
      statement stays as it is (`use Class1, Class2;`, `use A\B as C;`, `use a\{B, C};`, and a
      closure's `use ($x): Foo {`, whose return type is a namespace too). */
  lemma {:induction false} UseStatementNames(words: Words, s: LexState, lxs: seq<Lexeme>)
    requires WellFormed(s.modes) && Top(s.modes) == Php
    requires s.memo == Memo(Use, NameNamespace, [])
    requires forall i :: 0 <= i < |lxs| ==> UseStatementPart(words, lxs[i])
    ensures Run(words, s, lxs) == (UseStatementTokens(words, lxs), s)
    decreases |lxs|
  {
    if lxs != [] {
      assert UseStatementPart(words, lxs[0]);
      UsePartStep(words, s, lxs[0]);
      UseStatementNames(words, s, lxs[1..]);
    }
  }

  /** A word without a backslash is one segment. */
  lemma OneSegment(w: string)
    requires '\\' !in w
    ensures FirstSegment(w) == w
  {
  }

  /** A word whose lower-case form has no backslash is one segment. */
  lemma NoBackslashOneSegment(w: string)
    requires '\\' !in Lower(w)
    ensures FirstSegment(w) == w
  {
    forall i | 0 <= i < |w|
      ensures w[i] != '\\'
    {
      assert Lower(w)[i] in Lower(w);
    }
    OneSegment(w);
  }

  /** `PHP_EOL` has the exact-case constant shape. */
  lemma PhpEolIsConstant()
    ensures ConstantShape("PHP_EOL")
  {
    var g := "_EOL";
    assert "PHP_EOL"[..3] == "PHP" && "PHP_EOL"[3..] == g;
    assert WellGrouped(g) by {
      assert g[0] == '_' && g[1] == 'E' && g[2] == 'O' && g[3] == 'L';
    }
  }

  /** `E_user_DEPRECATED` does not: a group after `_` must start with an upper-case letter. */
  lemma LowerCaseGroupIsNotConstant()
    ensures !ConstantShape("E_user_DEPRECATED")
  {
    var w := "E_user_DEPRECATED";
    assert w[1..][0] == '_' && w[1..][1] == 'u';
    assert !IsUpper('u');
  }

  /** `PHP_EOL_` does not either: the trailing `_` starts no group. */
  lemma TrailingUnderscoreIsNotConstant()
    ensures !ConstantShape("PHP_EOL_")
  {
    var w := "PHP_EOL_";
    assert w[3..][4] == '_' && |w[3..]| == 5;
  }

  /** The type words are 3 to 9 characters long and start with neither `e` nor `p`; those of 7
      start with `?`, those of 8 with `i` or `c`. */
  lemma TypeWordShape(x: string)
    ensures x in TypeWords ==> 3 <= |x| <= 9 && x[0] != 'e' && x[0] != 'p'
    ensures x in TypeWords && |x| == 3 ==> x[0] == 'i'
    ensures x in TypeWords && |x| == 5 ==> x[0] == 'f' || x[0] == '?'
    ensures x in TypeWords && |x| == 7 ==> x[0] == '?'
    ensures x in TypeWords && |x| == 8 ==> x[0] == 'i' || x[0] == 'c'
  {
  }

  /** `use`, `class`, `const` and `function`, in any case, are taken by no earlier word rule:
      the identifier rule matches them whole. */
  lemma StatementKeywordsReachIdentifier(w: string)
    requires Lower(w) == "use" || Lower(w) == "class" || Lower(w) == "const" || Lower(w) == "function"
    ensures WordLexemes(w) == [Word(w)]
  {
    var low := Lower(w);
    assert low[0] == 'u' || low[0] == 'c' || low[0] == 'f';
    assert low[0] == LowerChar(w[0]);
    NoBackslashOneSegment(w);
    TypeWordShape(low);
  }

  /** A backslash-free word of the exact-case constant shape is one Keyword::Constant token:
      none of the rules before the constant rule takes it. */
  lemma ConstantShapedWord(w: string)
    requires '\\' !in w && ConstantShape(w)
    ensures WordLexemes(w) == [Fixed(KeywordConstant, w)]
  {
    OneSegment(w);
    var low := Lower(w);
    assert low[0] == 'e' || low[0] == 'p';
    TypeWordShape(low);
  }

  /** A backslash-free word longer than every word of the earlier rules, and not of the
      constant shape, reaches the identifier rule whole. */
  lemma LongWordReachesIdentifier(w: string)
    requires '\\' !in w && |w| > 9 && !ConstantShape(w)
    ensures WordLexemes(w) == [Word(w)]
  {
    OneSegment(w);
    TypeWordShape(Lower(w));
  }

  /** `PHP_EOL` is one Keyword::Constant token from the constant rule. */
  lemma PhpEolWord()
    ensures WordLexemes("PHP_EOL") == [Fixed(KeywordConstant, "PHP_EOL")]
  {
    PhpEolIsConstant();
    ConstantShapedWord("PHP_EOL");
  }

  /** `E_user_DEPRECATED` misses the constant rule and reaches the identifier rule whole. */
  lemma NearMissWord()
    ensures WordLexemes("E_user_DEPRECATED") == [Word("E_user_DEPRECATED")]
  {
    LowerCaseGroupIsNotConstant();
    LongWordReachesIdentifier("E_user_DEPRECATED");
  }

  /** In `int\Foo` the type rule takes `int` (its `\b` holds before the backslash) and the
      identifier rule matches `\Foo`. */
  lemma TypeWordBeforeBackslash()
    ensures WordLexemes("int\\Foo") == [Fixed(KeywordType, "int"), Word("\\Foo")]
  {
    var w := "int\\Foo";
    assert FirstSegment(w) == "int" by {
      assert w[3] == '\\';
      assert w[1..][1..][1..][0] == '\\';
    }
    assert Lower("int") == "int";
    assert w[3..] == "\\Foo";
  }

  /** `stdClass` is matched in any case, before the identifier rule. */
  lemma StdClassAnyCase(w: string)
    requires Lower(w) == "stdclass"
    ensures WordLexemes(w) == [Fixed(NameClass, w)]
  {
    NoBackslashOneSegment(w);
    TypeWordShape(Lower(w));
  }

  /** `use` (in any case) emits Keyword::Namespace and starts a use statement. */
  lemma UseWordStep(words: Words, s: LexState, w: string)
    requires WellFormed(s.modes) && IsCodeMode(Top(s.modes)) && Lower(w) == "use"
    ensures Step(words, s, Word(w)) == ([Token(KeywordNamespace, w)], s.(memo := Memo(Use, NameNamespace, [])))
  {
    WordStep(words, s, w);
  }

  /** `class` (in any case) emits Keyword::Declaration and starts a class statement. */
  lemma ClassWordStep(words: Words, s: LexState, w: string)
    requires WellFormed(s.modes) && IsCodeMode(Top(s.modes)) && Lower(w) == "class"
    ensures Step(words, s, Word(w)) == ([Token(KeywordDeclaration, w)], s.(memo := Memo(Class, NameClass, [])))
  {
    WordStep(words, s, w);
    assert KeywordBranch("class", words.keywords) == ClassKeyword;
  }

  /** `function` (in any case) with no statement in progress emits Keyword and starts a
      function statement with Name::Function pending. */
  lemma FunctionWordStep(words: Words, s: LexState, w: string)
    requires WellFormed(s.modes) && IsCodeMode(Top(s.modes)) && s.memo.IsNone() && Lower(w) == "function"
    ensures Step(words, s, Word(w)) ==
      ([Token(Keyword, w)], s.(memo := Memo(Function, NameConstant, [NameFunction])))
  {
    WordStep(words, s, w);
    assert KeywordBranch("function", words.keywords) == FunctionKeyword;
  }

  /** A fixed-kind lexeme in code emits its token and changes nothing. */
  lemma FixedStep(words: Words, s: LexState, k: Kind, t: string)
    requires WellFormed(s.modes) && IsCodeMode(Top(s.modes))
    ensures Step(words, s, Fixed(k, t)) == ([Token(k, t)], s)
  {
    StepInCode(words, s, Fixed(k, t));
  }

  /** `use` (in any case) emits Keyword::Namespace and makes every following bare name a
      namespace name until the statement ends. */
  lemma UseThenNames(words: Words, s: LexState, w: string, lxs: seq<Lexeme>)
    requires WellFormed(s.modes) && Top(s.modes) == Php
    requires Lower(w) == "use"
    requires forall i :: 0 <= i < |lxs| ==> UseStatementPart(words, lxs[i])
    ensures Run(words, s, [Word(w)] + lxs) ==
      ([Token(KeywordNamespace, w)] + UseStatementTokens(words, lxs), s.(memo := Memo(Use, NameNamespace, [])))
  {
    var s1 := s.(memo := Memo(Use, NameNamespace, []));
    UseWordStep(words, s, w);
    RunCons(words, s, Word(w), lxs);
    UseStatementNames(words, s1, lxs);
  }

  /** Without the two-token `\\{`, a `use` statement gives one token per lexeme. */
  lemma {:induction false} UseTokensOnePerLexeme(words: Words, lxs: seq<Lexeme>)
    requires forall i :: 0 <= i < |lxs| ==> UseStatementPart(words, lxs[i]) && !lxs[i].NsBrace?
    ensures |UseStatementTokens(words, lxs)| == |lxs|
    ensures forall i :: 0 <= i < |lxs| ==> UseStatementTokens(words, lxs)[i] == UsePartTokens(words, lxs[i])[0]
    decreases |lxs|
  {
    if lxs != [] {
      assert UseStatementPart(words, lxs[0]) && !lxs[0].NsBrace?;
      UseTokensOnePerLexeme(words, lxs[1..]);
    }
  }

  /** A closure's `use ($v): Foo` clause is a `use` statement too, so its return type `Foo` is
      Name::Namespace rather than Name::Class. */
  lemma ClosureUseReturnType(words: Words, s: LexState, u: string, v: string, name: string)
    requires WellFormed(s.modes) && Top(s.modes) == Php
    requires Lower(u) == "use" && BareName(words, name)
    ensures var lxs := [LParen, Fixed(NameVariable, v), RParen, Fixed(Operator, ":"), Word(name)];
      var ts := Run(words, s, [Word(u)] + lxs).0;
      |ts| == 6 && ts[5] == Token(NameNamespace, name)
  {
    var lxs := [LParen, Fixed(NameVariable, v), RParen, Fixed(Operator, ":"), Word(name)];
    assert UseStatementPart(words, lxs[4]);
    assert forall i :: 0 <= i < |lxs| ==> UseStatementPart(words, lxs[i]) && !lxs[i].NsBrace?;
    UseThenNames(words, s, u, lxs);
    UseTokensOnePerLexeme(words, lxs);
    assert UsePartTokens(words, lxs[4]) == [Token(NameNamespace, name)];
  }

  /** `class` (in any case) emits Keyword::Declaration and the next bare name is Name::Class
      (`class A {}`). */
  lemma ClassThenName(words: Words, s: LexState, w: string, ws: string, name: string)
    requires WellFormed(s.modes) && IsCodeMode(Top(s.modes))
    requires Lower(w) == "class" && BareName(words, name)
    ensures Run(words, s, [Word(w), Fixed(Text, ws), Word(name)]) ==
      ([Token(KeywordDeclaration, w), Token(Text, ws), Token(NameClass, name)],
       s.(memo := Memo(Class, NameClass, [])))
  {
    var s1 := s.(memo := Memo(Class, NameClass, []));
    ClassWordStep(words, s, w);
    FixedStep(words, s1, Text, ws);
    BareNameInStatement(words, s1, name);
    RunTriple(words, s, Word(w), Fixed(Text, ws), Word(name),
      [Token(KeywordDeclaration, w)], s1, [Token(Text, ws)], s1, [Token(NameClass, name)], s1);
    assert [Token(KeywordDeclaration, w)] + [Token(Text, ws)] + [Token(NameClass, name)] ==
      [Token(KeywordDeclaration, w), Token(Text, ws), Token(NameClass, name)];
  }

  /** `function` at the start of a statement emits Keyword and names the next bare name
      Name::Function; what follows defaults to Name::Constant (`function foo`). */
  lemma FunctionThenName(words: Words, s: LexState, w: string, ws: string, name: string)
    requires WellFormed(s.modes) && IsCodeMode(Top(s.modes)) && s.memo.IsNone()
    requires Lower(w) == "function" && BareName(words, name)
    ensures Run(words, s, [Word(w), Fixed(Text, ws), Word(name)]) ==
      ([Token(Keyword, w), Token(Text, ws), Token(NameFunction, name)],
       s.(memo := Memo(Function, NameConstant, [])))
  {
    var s1 := s.(memo := Memo(Function, NameConstant, [NameFunction]));
    var s2 := s.(memo := Memo(Function, NameConstant, []));
    FunctionWordStep(words, s, w);
    FixedStep(words, s1, Text, ws);
    BareNameInStatement(words, s1, name);
    RunTriple(words, s, Word(w), Fixed(Text, ws), Word(name),
      [Token(Keyword, w)], s1, [Token(Text, ws)], s1, [Token(NameFunction, name)], s2);
    assert [Token(Keyword, w)] + [Token(Text, ws)] + [Token(NameFunction, name)] ==
      [Token(Keyword, w), Token(Text, ws), Token(NameFunction, name)];
  }

  /** `function (` (an anonymous function) emits Keyword then `(`, and no Name::Function is left
      pending: the next bare name is a parameter type, Name::Class. */
  lemma AnonymousFunction(words: Words, s: LexState, w: string, name: string)
    requires WellFormed(s.modes) && IsCodeMode(Top(s.modes)) && s.memo.IsNone()
    requires Lower(w) == "function" && BareName(words, name)
    ensures Run(words, s, [Word(w), LParen, Word(name)]) ==
      ([Token(Keyword, w), Token(Punctuation, "("), Token(NameClass, name)],
       s.(memo := Memo(Function, NameConstant, [])))
  {
    var s1 := s.(memo := Memo(Function, NameConstant, [NameFunction]));
    var s2 := s.(memo := Memo(Function, NameConstant, [NameClass]));
    var s3 := s.(memo := Memo(Function, NameConstant, []));
    FunctionWordStep(words, s, w);
    assert Step(words, s1, LParen) == ([Token(Punctuation, "(")], s2) by {
      StepInCode(words, s1, LParen);
      assert OnLParen(s1.memo) == s2.memo;
    }
    BareNameInStatement(words, s2, name);
    RunTriple(words, s, Word(w), LParen, Word(name),
      [Token(Keyword, w)], s1, [Token(Punctuation, "(")], s2, [Token(NameClass, name)], s3);
    assert [Token(Keyword, w)] + [Token(Punctuation, "(")] + [Token(NameClass, name)] ==
      [Token(Keyword, w), Token(Punctuation, "("), Token(NameClass, name)];
  }

  /** Inside a `use` statement, `function` (in any case) emits Keyword and defers
      Name::Function to the next bare name only; the statement then goes on as it was
      (`use function a\\b;` names `a\\b` Name::Function). */
  lemma UseFunctionName(words: Words, s: LexState, f: string, ws: string, name: string)
    requires WellFormed(s.modes) && IsCodeMode(Top(s.modes))
    requires s.memo == Memo(Use, NameNamespace, [])
    requires Lower(f) == "function" && BareName(words, name)
    ensures Run(words, s, [Word(f), Fixed(Text, ws), Word(name)]) ==
      ([Token(Keyword, f), Token(Text, ws), Token(NameFunction, name)], s)
  {
    var s1 := s.(memo := Memo(Use, NameNamespace, [NameFunction]));
    assert Step(words, s, Word(f)) == ([Token(Keyword, f)], s1) by {
      WordStep(words, s, f);
      assert KeywordBranch("function", words.keywords) == FunctionKeyword;
      assert [] + [NameFunction] == [NameFunction];
    }
    FixedStep(words, s1, Text, ws);
    BareNameInStatement(words, s1, name);
    RunTriple(words, s, Word(f), Fixed(Text, ws), Word(name),
      [Token(Keyword, f)], s1, [Token(Text, ws)], s1, [Token(NameFunction, name)], s);
    assert [Token(Keyword, f)] + [Token(Text, ws)] + [Token(NameFunction, name)] ==
      [Token(Keyword, f), Token(Text, ws), Token(NameFunction, name)];
  }

  /** Likewise `const` inside a `use` statement defers Name::Constant to the next bare name. */
  lemma UseConstName(words: Words, s: LexState, c: string, ws: string, name: string)
    requires WellFormed(s.modes) && IsCodeMode(Top(s.modes))
    requires s.memo == Memo(Use, NameNamespace, [])
    requires Lower(c) == "const" && BareName(words, name)
    ensures Run(words, s, [Word(c), Fixed(Text, ws), Word(name)]) ==
      ([Token(Keyword, c), Token(Text, ws), Token(NameConstant, name)], s)
  {
    var s1 := s.(memo := Memo(Use, NameNamespace, [NameConstant]));
    assert Step(words, s, Word(c)) == ([Token(Keyword, c)], s1) by {
      WordStep(words, s, c);
      assert KeywordBranch("const", words.keywords) == ConstKeyword;
      assert [] + [NameConstant] == [NameConstant];
    }
    FixedStep(words, s1, Text, ws);
    BareNameInStatement(words, s1, name);
    RunTriple(words, s, Word(c), Fixed(Text, ws), Word(name),
      [Token(Keyword, c)], s1, [Token(Text, ws)], s1, [Token(NameConstant, name)], s);
    assert [Token(Keyword, c)] + [Token(Text, ws)] + [Token(NameConstant, name)] ==
      [Token(Keyword, c), Token(Text, ws), Token(NameConstant, name)];
  }

  /** `interface` and `trait` start no statement: at a statement start the name after them is
      not a builtin's, so it gets the fresh memoizer's default, Name::Other (`interface A {}`). */
  lemma InterfaceThenName(words: Words, s: LexState, w: string, ws: string, name: string)
    requires WellFormed(s.modes) && IsCodeMode(Top(s.modes)) && s.memo == Fresh
    requires (Lower(w) == "interface" || Lower(w) == "trait") && BareName(words, name)
    requires Lower(name) !in words.builtins
    ensures Run(words, s, [Word(w), Fixed(Text, ws), Word(name)]) ==
      ([Token(KeywordDeclaration, w), Token(Text, ws), Token(NameOther, name)], s)
  {
    assert Step(words, s, Word(w)) == ([Token(KeywordDeclaration, w)], s) by {
      WordStep(words, s, w);
      assert KeywordBranch(Lower(w), words.keywords) == DeclarationKeyword;
    }
    FixedStep(words, s, Text, ws);
    assert Step(words, s, Word(name)) == ([Token(NameOther, name)], s) by {
      WordStep(words, s, name);
    }
    RunTriple(words, s, Word(w), Fixed(Text, ws), Word(name),
      [Token(KeywordDeclaration, w)], s, [Token(Text, ws)], s, [Token(NameOther, name)], s);
    assert [Token(KeywordDeclaration, w)] + [Token(Text, ws)] + [Token(NameOther, name)] ==
      [Token(KeywordDeclaration, w), Token(Text, ws), Token(NameOther, name)];
  }

  // ---------------------------------------------------------------------------------------
  // The mode stack

  /** With `start_inline` unset the stack is just `:root`; there a delegated span pushes
      `:template`, and anything else meets the empty fallback rule, which pushes `:template`
      and `:php` before the code rules scan it. */
  lemma RootFallback(words: Words, m: Memo, lx: Lexeme)
    ensures Start(Guess) == [Root]
    ensures lx.HostText? ==>
      Step(words, LexState([Root], m), lx) == ([Token(Delegated, lx.text)], LexState([Root, Template], m))
    ensures !lx.HostText? ==>
      Step(words, LexState([Root], m), lx) == Step(words, LexState([Root, Template, Php], m), lx)
  {
    assert Top([Root]) == Root;
    assert [Root] + [Template] == [Root, Template];
    assert [Root] + [Template, Php] == [Root, Template, Php];
    assert WellFormed([Root, Template, Php]) by {
      PushKeepsWellFormed([Root], Template);
      PushKeepsWellFormed([Root, Template], Php);
      assert [Root, Template] + [Php] == [Root, Template, Php];
    }
    if !lx.HostText? {
      StepInCode(words, LexState([Root, Template, Php], m), lx);
    }
  }

  /** An open tag in `:template` pushes `:php`, and the close tag pops back to `:template`,
      resetting the memoizer. */
  lemma OpenThenCloseTag(words: Words, s: LexState, t: string)
    requires WellFormed(s.modes) && Top(s.modes) == Template
    ensures Run(words, s, [OpenTag(t), CloseTag]) ==
      ([Token(CommentPreproc, t), Token(CommentPreproc, "?>")], LexState(s.modes, Fresh))
  {
    var s1 := s.(modes := s.modes + [Php]);
    assert Step(words, s, OpenTag(t)) == ([Token(CommentPreproc, t)], s1);
    assert Popped(s1.modes) == s.modes;
    PushKeepsWellFormed(s.modes, Php);
    StepInCode(words, s1, CloseTag);
    assert Step(words, s1, CloseTag) == ([Token(CommentPreproc, "?>")], LexState(s.modes, Fresh));
    RunPair(words, s, OpenTag(t), CloseTag,
      [Token(CommentPreproc, t)], s1, [Token(CommentPreproc, "?>")], LexState(s.modes, Fresh));
    assert [Token(CommentPreproc, t)] + [Token(CommentPreproc, "?>")] ==
      [Token(CommentPreproc, t), Token(CommentPreproc, "?>")];
  }

  /** Only fixed-kind pieces inside a double-quoted string. */
  predicate StringBody(lxs: seq<Lexeme>)
  {
    forall i :: 0 <= i < |lxs| ==> lxs[i].Fixed?
  }

  function FixedTokens(lxs: seq<Lexeme>): seq<Token>
    requires StringBody(lxs)
  {
    if lxs == [] then [] else [Token(lxs[0].kind, lxs[0].text)] + FixedTokens(lxs[1..])
  }

  lemma {:induction false} StringBodyKeepsState(words: Words, s: LexState, body: seq<Lexeme>)
    requires WellFormed(s.modes) && Top(s.modes) == Str && StringBody(body)
    ensures Run(words, s, body) == (FixedTokens(body), s)
    decreases |body|
  {
    if body != [] {
      assert body[0].Fixed?;
      StringBodyKeepsState(words, s, body[1..]);
    }
  }

  /** Inside a string, a fixed-kind piece emits its token and changes nothing. */
  lemma StringPieceStep(words: Words, s: LexState, lx: Lexeme)
    requires WellFormed(s.modes) && Top(s.modes) == Str && lx.Fixed?
    ensures Step(words, s, lx) == ([Token(lx.kind, lx.text)], s)
  {
  }

  /** Inside a string, the closing `"` emits Str::Double and pops `:string`. */
  lemma StringQuoteStep(words: Words, s: LexState)
    requires WellFormed(s.modes) && Top(s.modes) == Str
    ensures Step(words, s, Quote) == ([Token(StrDouble, "\"")], s.(modes := Popped(s.modes)))
  {
  }

  /** The rest of a string, up to and including its closing `"`, emits the fixed pieces and
      the quote and pops `:string`. */
  lemma {:induction false} StringTail(words: Words, s: LexState, body: seq<Lexeme>)
    requires WellFormed(s.modes) && Top(s.modes) == Str && StringBody(body)
    ensures Run(words, s, body + [Quote]) ==
      (FixedTokens(body) + [Token(StrDouble, "\"")], s.(modes := Popped(s.modes)))
    decreases |body|
  {
    if body == [] {
      assert body + [Quote] == [Quote];
      StringQuoteStep(words, s);
      RunOne(words, s, Quote);
      assert FixedTokens(body) + [Token(StrDouble, "\"")] == [Token(StrDouble, "\"")];
    } else {
      assert body[0].Fixed?;
      RunCons(words, s, body[0], body[1..] + [Quote]);
      assert [body[0]] + (body[1..] + [Quote]) == body + [Quote];
      StringTail(words, s, body[1..]);
      var t := Token(body[0].kind, body[0].text);
      StringPieceStep(words, s, body[0]);
      assert FixedTokens(body) == [t] + FixedTokens(body[1..]);
      assert [t] + (FixedTokens(body[1..]) + [Token(StrDouble, "\"")]) ==
        FixedTokens(body) + [Token(StrDouble, "\"")];
    }
  }

  /** `"` in code pushes `:string`, and the closing `"` pops it: the string leaves the modes and
      the memoizer as they were. */
  lemma StringRoundTrip(words: Words, s: LexState, body: seq<Lexeme>)
    requires WellFormed(s.modes) && IsCodeMode(Top(s.modes)) && StringBody(body)
    ensures Run(words, s, [Quote] + body + [Quote]) ==
      ([Token(StrDouble, "\"")] + FixedTokens(body) + [Token(StrDouble, "\"")], s)
  {
    var s1 := s.(modes := s.modes + [Str]);
    assert Step(words, s, Quote) == ([Token(StrDouble, "\"")], s1);
    PushKeepsWellFormed(s.modes, Str);
    RunCons(words, s, Quote, body + [Quote]);
    assert [Quote] + (body + [Quote]) == [Quote] + body + [Quote];
    StringTail(words, s1, body);
    assert Popped(s1.modes) == s.modes;
    var q := Token(StrDouble, "\"");
    assert [q] + (FixedTokens(body) + [q]) == [q] + FixedTokens(body) + [q];
  }

  /** `{${` in a string pushes `:interp_double` and `{` before `$` pushes `:interp_single`. */
  lemma InterpolationOpens(words: Words, s: LexState)
    requires WellFormed(s.modes) && Top(s.modes) == Str
    ensures Step(words, s, InterpOpenDouble) ==
      ([Token(StrInterpol, "{${")], s.(modes := s.modes + [InterpDouble]))
    ensures Step(words, s, InterpOpenSingle) ==
      ([Token(StrInterpol, "{")], s.(modes := s.modes + [InterpSingle]))
  {
  }

  /** `}}` pops `:interp_double` back to the string, and `}` pops `:interp_single`. */
  lemma InterpolationCloses(words: Words, s: LexState)
    requires WellFormed(s.modes) && Top(s.modes) == Str
    ensures Step(words, s.(modes := s.modes + [InterpDouble]), RBraces) == ([Token(StrInterpol, "}}")], s)
    ensures Step(words, s.(modes := s.modes + [InterpSingle]), RBrace) == ([Token(StrInterpol, "}")], s)
  {
    assert Popped(s.modes + [InterpDouble]) == s.modes;
    assert Popped(s.modes + [InterpSingle]) == s.modes;
  }

  /** A single `}` inside `:interp_double` is not the closing `}}`: the mixed-in code rules give it
      Punctuation and the mode stays. */
  lemma SingleBraceInDoubleInterpolation(words: Words, s: LexState)
    requires WellFormed(s.modes) && Top(s.modes) == Str
    ensures Step(words, s.(modes := s.modes + [InterpDouble]), RBrace) ==
      ([Token(Punctuation, "}")], s.(modes := s.modes + [InterpDouble]))
  {
    PushKeepsWellFormed(s.modes, InterpDouble);
  }

  /** The code rules mixed into the interpolation states include `?>`, whose `pop!` leaves the
      interpolation state (not `:php`) and resets the memoizer. */
  lemma CloseTagInsideInterpolation(words: Words, s: LexState)
    requires WellFormed(s.modes) && Top(s.modes) == Str
    ensures Step(words, s.(modes := s.modes + [InterpDouble]), CloseTag) ==
      ([Token(CommentPreproc, "?>")], LexState(s.modes, Fresh))
    ensures Step(words, s.(modes := s.modes + [InterpSingle]), CloseTag) ==
      ([Token(CommentPreproc, "?>")], LexState(s.modes, Fresh))
  {
    PushKeepsWellFormed(s.modes, InterpDouble);
    assert Popped(s.modes + [InterpDouble]) == s.modes;
    PushKeepsWellFormed(s.modes, InterpSingle);
    assert Popped(s.modes + [InterpSingle]) == s.modes;
  }
}
