/** The lexer object (`Rouge::Lexers::PHP`): its options, its memoizer, its builtin cache and
    the mode stack of the scan in progress. Each method is proved to do what the functions of
    `Classifier` and `Scanner` specify. */
module Lexer {
  import opened Tokens
  import opened Memoizer
  import opened Classifier
  import opened Scanner
  import Properties

  class PhpLexer {
    /** `@start_inline`, `@funcnamehighlighting`, `@disabledmodules`. */
    const startInline: StartInline
    const funcNameHighlighting: bool
    const disabledModules: seq<string>
    /** `PHP.builtins`: the builtin functions by module, in registry order. */
    const registry: seq<Module>
    /** `PHP.keywords`, fixed when the lexer is created. */
    const keywords: set<string>
    /** `@memoizer` */
    const memoizer: Stack
    /** `@builtins`, computed on first use. */
    var builtinsCache: Option<set<string>>
    /** The state stack of the scan in progress (top last). */
    var modes: seq<Mode>

    /** The builtin set the identifier rule consults: empty when function-name highlighting
        is off, otherwise the functions of every module that is not disabled. */
    function EffectiveBuiltins(): (b: set<string>)
      ensures !funcNameHighlighting ==> b == {}
      ensures funcNameHighlighting ==> forall f :: f in b <==>
        exists j :: 0 <= j < |registry| && registry[j].name !in disabledModules && f in registry[j].functions
    {
      if funcNameHighlighting then
        var b := Enabled(registry, disabledModules);
        assert forall f :: f in b <==>
          exists j :: 0 <= j < |registry| && registry[j].name !in disabledModules && f in registry[j].functions
        by {
          forall f ensures f in b <==>
            exists j :: 0 <= j < |registry| && registry[j].name !in disabledModules && f in registry[j].functions
          {
            EnabledMembers(registry, disabledModules, f);
          }
        }
        b
      else {}
    }

    /** The word sets of the identifier rule for this lexer. */
    function WordSets(): Words
    {
      Words(keywords, EffectiveBuiltins())
    }

    /** A cached builtin set, when present, is the one `EffectiveBuiltins` describes. */
    predicate Valid()
      reads this
    {
      builtinsCache.Some? ==> builtinsCache.value == Enabled(registry, disabledModules)
    }

    /** The memoizer and the mode stack as a scan state. */
    function Snapshot(): LexState
      reads this, memoizer
    {
      LexState(modes, memoizer.State())
    }

    /** `initialize`: records the options and creates a fresh memoizer. */
    constructor (opt: StartInline, highlight: bool, disabled: seq<string>, modules: seq<Module>)
      ensures startInline == opt && funcNameHighlighting == highlight
      ensures disabledModules == disabled && registry == modules
      ensures keywords == Keywords && WordSets() == PhpWords(EffectiveBuiltins())
      ensures fresh(memoizer) && memoizer.State() == Fresh
      ensures builtinsCache == None && modes == [Root]
      ensures Valid()
    {
      startInline := opt;
      funcNameHighlighting := highlight;
      disabledModules := disabled;
      registry := modules;
      keywords := Keywords;
      memoizer := new Stack();
      builtinsCache := None;
      modes := [Root];
    }

    /** `builtins`: empty when highlighting is off; otherwise the cached set, merged from the
        registry on first use. */
    method Builtins() returns (b: set<string>)
      requires Valid()
      modifies this
      ensures b == EffectiveBuiltins()
      ensures Valid() && modes == old(modes)
      ensures funcNameHighlighting ==> builtinsCache == Some(b)
      ensures !funcNameHighlighting ==> builtinsCache == old(builtinsCache)
    {
      if !funcNameHighlighting {
        return {};
      }
      if builtinsCache.None? {
        var merged := MergeBuiltins(registry, disabledModules);
        builtinsCache := Some(merged);
      }
      b := builtinsCache.value;
    }

    /** `reset_token`: resets the memoizer. */
    method ResetToken()
      modifies memoizer
      ensures memoizer.State() == Fresh
    {
      memoizer.Reset();
    }

    /** The identifier rule's if/elsif chain on the lower-cased word: picks the kind and
        updates the memoizer. The builtin set is consulted only when no statement is in
        progress. */
    method ClassifyWord(name: string) returns (k: Kind)
      requires Valid()
      modifies this, memoizer
      ensures (k, memoizer.State()) == Classify(WordSets(), name, old(memoizer.State()))
      ensures Valid() && modes == old(modes)
    {
      match KeywordBranch(name, keywords)
      case UseKeyword =>
        memoizer.Set(Use, NameNamespace, []);
        k := KeywordNamespace;
      case ClassKeyword =>
        memoizer.Set(Class, NameClass, []);
        k := KeywordDeclaration;
      case ConstKeyword =>
        if memoizer.IsNone() {
          memoizer.Set(Const, NameConstant, []);
        } else {
          memoizer.Push(NameConstant);
        }
        k := Keyword;
      case FunctionKeyword =>
        if memoizer.IsNone() {
          memoizer.Set(Function, NameConstant, [NameFunction]);
        } else {
          memoizer.Push(NameFunction);
        }
        k := Keyword;
      case NamespaceKeyword =>
        k := KeywordNamespace;
      case DeclarationKeyword =>
        k := KeywordDeclaration;
      case LanguageKeyword =>
        k := Keyword;
      case Identifier =>
        k := ClassifyName(name);
    }

    /** The last two branches of the chain: a builtin function name when no statement is in
        progress, otherwise whatever the memoizer pops. */
    method ClassifyName(name: string) returns (k: Kind)
      requires Valid()
      modifies this, memoizer
      ensures var m := old(memoizer.State());
        (k, memoizer.State()) == if m.IsNone() && name in EffectiveBuiltins() then (NameBuiltin, m) else m.Pop()
      ensures Valid() && modes == old(modes)
    {
      var isBuiltin := false;
      if memoizer.IsNone() {
        var b := Builtins();
        isBuiltin := name in b;
      }
      if isBuiltin {
        k := NameBuiltin;
      } else {
        k := memoizer.Pop();
      }
    }

    /** The code rules. */
    method CodeRule(lx: Lexeme) returns (ts: seq<Token>)
      requires Valid() && WellFormed(modes) && IsCodeMode(Top(modes))
      modifies this, memoizer
      ensures (ts, Snapshot()) == CodeStep(WordSets(), old(Snapshot()), lx)
      ensures Valid()
    {
      WellFormedLayout(modes, |modes| - 1);
      match lx
      case CloseTag =>
        memoizer.Reset();
        ts := [Token(CommentPreproc, "?>")];
        modes := Popped(modes);
      case Eq =>
        ts := [Token(Operator, "=")];
        if memoizer.statement == Function {
          var _ := memoizer.Pop();
        }
      case NsBrace =>
        ts := [Token(NameNamespace, "\\"), Token(Punctuation, "{")];
      case Semi =>
        ts := [Token(Punctuation, ";")];
        memoizer.Reset();
      case LBrace =>
        ts := [Token(Punctuation, "{")];
        memoizer.Reset();
      case Comma =>
        ts := [Token(Punctuation, ",")];
        memoizer.Empty();
        if memoizer.statement == Function {
          memoizer.Push(NameClass);
        }
      case LParen =>
        ts := [Token(Punctuation, "(")];
        if memoizer.statement == Function {
          var _ := memoizer.Pop();
        }
        if memoizer.statement == Function {
          memoizer.Push(NameClass);
        }
      case RParen =>
        ts := [Token(Punctuation, ")")];
        if memoizer.statement == Function {
          memoizer.Push(NameClass);
        }
      case RBrace =>
        ts := [Token(Punctuation, "}")];
      case Word(w) =>
        var k := ClassifyWord(Lower(w));
        ts := [Token(k, w)];
      case Fixed(k, t) =>
        ts := [Token(k, t)];
      case Quote =>
        ts := [Token(StrDouble, "\"")];
        modes := modes + [Str];
      case _ =>
        ts := [Token(Error, lx.Source())];
    }

    /** The `:string` rules. */
    method StringRule(lx: Lexeme) returns (ts: seq<Token>)
      requires WellFormed(modes) && Top(modes) == Str
      modifies this
      ensures (ts, Snapshot()) == StringStep(old(Snapshot()), lx)
      ensures builtinsCache == old(builtinsCache)
    {
      WellFormedLayout(modes, |modes| - 1);
      match lx
      case Quote =>
        ts := [Token(StrDouble, "\"")];
        modes := Popped(modes);
      case Fixed(k, t) =>
        ts := [Token(k, t)];
      case InterpOpenDouble =>
        ts := [Token(StrInterpol, "{${")];
        modes := modes + [InterpDouble];
      case InterpOpenSingle =>
        ts := [Token(StrInterpol, "{")];
        modes := modes + [InterpSingle];
      case _ =>
        ts := [Token(Error, lx.Source())];
    }

    /** The `:template` rules. */
    method TemplateRule(lx: Lexeme) returns (ts: seq<Token>)
      requires WellFormed(modes) && Top(modes) == Template
      modifies this
      ensures (ts, Snapshot()) == TemplateStep(old(Snapshot()), lx)
      ensures builtinsCache == old(builtinsCache)
    {
      match lx
      case OpenTag(t) =>
        ts := [Token(CommentPreproc, t)];
        modes := modes + [Php];
      case HostText(t) =>
        ts := [Token(Delegated, t)];
      case _ =>
        ts := [Token(Error, lx.Source())];
    }

    /** One scanning step in the mode on top of the stack. */
    method StepOnce(lx: Lexeme) returns (ts: seq<Token>)
      requires Valid() && WellFormed(modes)
      modifies this, memoizer
      ensures (ts, Snapshot()) == Step(WordSets(), old(Snapshot()), lx)
      ensures Valid() && WellFormed(modes)
    {
      WellFormedLayout(modes, |modes| - 1);
      var top := Top(modes);
      if top == Root && lx.HostText? {
        PushKeepsWellFormed(modes, Template);
        ts := [Token(Delegated, lx.text)];
        modes := modes + [Template];
      } else if top == Template {
        ts := TemplateRule(lx);
      } else if top == Str {
        ts := StringRule(lx);
      } else if (top == InterpDouble && lx.RBraces?) || (top == InterpSingle && lx.RBrace?) {
        PopKeepsWellFormed(modes);
        ts := [Token(StrInterpol, lx.Source())];
        modes := Popped(modes);
      } else {
        ts := EnterCodeRule(lx);
      }
    }

    /** The code rules, after the empty fallback rule of `:root` where it applies. */
    method EnterCodeRule(lx: Lexeme) returns (ts: seq<Token>)
      requires Valid() && WellFormed(modes) && (Top(modes) == Root || IsCodeMode(Top(modes)))
      modifies this, memoizer
      ensures (ts, Snapshot()) == CodeStep(WordSets(), EnterCode(old(Snapshot())), lx)
      ensures Valid() && WellFormed(modes)
    {
      modes := EnterCode(Snapshot()).modes;
      ts := CodeRule(lx);
    }

    /** A whole scan: the stack is reset to `:root` and the `start` block pushes what
        `start_inline` asks for; then every lexeme is scanned in order. */
    method Lex(lxs: seq<Lexeme>) returns (ts: seq<Token>)
      requires Valid()
      modifies this, memoizer
      ensures (ts, Snapshot()) == Scanner.Lex(startInline, WordSets(), old(memoizer.State()), lxs)
      ensures Valid()
    {
      modes := Start(startInline);
      StartIsWellFormed(startInline);
      ghost var s0 := Snapshot();
      ts := [];
      var i := 0;
      assert lxs[0..] == lxs;
      assert [] + Run(WordSets(), s0, lxs).0 == Run(WordSets(), s0, lxs).0;
      while i < |lxs|
        invariant 0 <= i <= |lxs|
        invariant Valid() && WellFormed(modes)
        invariant Run(WordSets(), s0, lxs) ==
          (ts + Run(WordSets(), Snapshot(), lxs[i..]).0, Run(WordSets(), Snapshot(), lxs[i..]).1)
        decreases |lxs| - i
      {
        ghost var before := Snapshot();
        var step := StepOnce(lxs[i]);
        Properties.RunAdvance(WordSets(), s0, lxs, i, ts, before, step, Snapshot());
        ts := ts + step;
        i := i + 1;
      }
      assert lxs[i..] == [];
      assert Run(WordSets(), Snapshot(), []) == ([], Snapshot());
      assert ts + [] == ts;
    }
  }
}
