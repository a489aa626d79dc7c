/** The mode stack and one scanning step of the PHP lexer, over lexemes the regex layer has
    already recognised. A `Lexeme` names the rule that matched (and carries its text); `Step`
    applies that rule's action in the mode on top of the stack: it emits tokens, updates the
    memoizer and pushes or pops modes. `Run` folds `Step` over a lexeme sequence. */
module Scanner {
  import opened Tokens
  import opened Memoizer
  import opened Classifier

  /** The lexer's states: `:root`, `:template`, `:php`, `:string`, `:interp_double`,
      `:interp_single`. */
  datatype Mode = Root | Template | Php | Str | InterpDouble | InterpSingle

  /** What the regex layer recognised at the scan position.
      - HostText: a span the `:root` heuristics or the `:template` state delegate to the
        parent (HTML) lexer.
      - OpenTag: `<?php`, `<?=` or `<?` in `:template`.
      - CloseTag, Eq, NsBrace, Semi, LBrace, Comma, LParen, RParen, RBrace: `?>`, `=`, `\{`,
        `;`, `{`, `,`, `(`, `)`, `}` in the code rules.
      - Word: the text the identifier rule `[\\?]?nsid` matched: a (namespaced) identifier,
        optionally led by `\` or `?`, that no earlier word rule took (see `WordLexemes`).
      - Fixed: any other rule that only emits one token of a fixed kind (whitespace,
        comments, heredocs, variables, numbers, operators, quoted-string pieces, ...);
        a rule emitting several groups appears as that many Fixed lexemes.
      - Quote: `"`; InterpOpenDouble: `{${`; InterpOpenSingle: `{` before `$`;
        RBraces: `}}`. */
  datatype Lexeme =
    | HostText(text: string)
    | OpenTag(text: string)
    | CloseTag | Eq | NsBrace | Semi | LBrace | Comma | LParen | RParen | RBrace
    | Word(text: string)
    | Fixed(kind: Kind, text: string)
    | Quote | InterpOpenDouble | InterpOpenSingle | RBraces
  {
    /** The input text the lexeme covers. */
    function Source(): string
    {
      match this
      case HostText(t) => t
      case OpenTag(t) => t
      case CloseTag => "?>"
      case Eq => "="
      case NsBrace => "\\{"
      case Semi => ";"
      case LBrace => "{"
      case Comma => ","
      case LParen => "("
      case RParen => ")"
      case RBrace => "}"
      case Word(t) => t
      case Fixed(_, t) => t
      case Quote => "\""
      case InterpOpenDouble => "{${"
      case InterpOpenSingle => "{"
      case RBraces => "}}"
    }
  }

  /** The input text a lexeme sequence covers. */
  function Sources(lxs: seq<Lexeme>): string
  {
    if lxs == [] then [] else lxs[0].Source() + Sources(lxs[1..])
  }

  /** The mutable state of one scan: the mode stack (top last) and the memoizer. */
  datatype LexState = LexState(modes: seq<Mode>, memo: Memo)

  /** The `start_inline` option: `true`, `false` or `:guess`. */
  datatype StartInline = Inline | NotInline | Guess

  /** The mode stack after `reset!` (just `:root`) and the `start` block. */
  function Start(opt: StartInline): seq<Mode>
  {
    match opt
    case Inline => [Root, Template, Php]
    case NotInline => [Root, Template]
    case Guess => [Root]
  }

  function Top(ms: seq<Mode>): Mode
    requires ms != []
  {
    ms[|ms| - 1]
  }

  function Popped(ms: seq<Mode>): seq<Mode>
    requires ms != []
  {
    ms[..|ms| - 1]
  }

  /** The modes that run the code rules (`:php` itself and the two states that mix it in). */
  predicate IsCodeMode(md: Mode)
  {
    md == Php || md == InterpDouble || md == InterpSingle
  }

  /** Which mode can push which: `:root` pushes `:template`, `:template` pushes `:php`, code
      pushes `:string`, `:string` pushes the two interpolation states. */
  predicate Encloses(outer: Mode, inner: Mode)
  {
    match inner
    case Root => false
    case Template => outer == Root
    case Php => outer == Template
    case Str => IsCodeMode(outer)
    case InterpDouble => outer == Str
    case InterpSingle => outer == Str
  }

  /** The shape every reachable mode stack has: `:root` at the bottom and each mode pushed by
      the one below it. */
  predicate WellFormed(ms: seq<Mode>)
  {
    |ms| > 0 && ms[0] == Root &&
    forall i :: 0 < i < |ms| ==> Encloses(ms[i - 1], ms[i])
  }

  lemma PushKeepsWellFormed(ms: seq<Mode>, md: Mode)
    requires WellFormed(ms) && Encloses(Top(ms), md)
    ensures WellFormed(ms + [md])
  {
    var ms' := ms + [md];
    forall i | 0 < i < |ms'| ensures Encloses(ms'[i - 1], ms'[i]) {
      if i < |ms| { assert ms'[i - 1] == ms[i - 1] && ms'[i] == ms[i]; }
    }
  }

  lemma PopKeepsWellFormed(ms: seq<Mode>)
    requires WellFormed(ms) && |ms| > 1
    ensures WellFormed(Popped(ms))
  {
    var ms' := Popped(ms);
    forall i | 0 < i < |ms'| ensures Encloses(ms'[i - 1], ms'[i]) {
      assert ms'[i - 1] == ms[i - 1] && ms'[i] == ms[i];
    }
  }

  /** On a well-formed stack, `:root` is only at the bottom and `:template` only just above it. */
  lemma WellFormedLayout(ms: seq<Mode>, i: nat)
    requires WellFormed(ms) && i < |ms|
    ensures ms[i] == Root <==> i == 0
    ensures ms[i] == Template ==> i == 1
    ensures IsCodeMode(ms[i]) ==> i >= 2
  {
    if i > 0 {
      assert Encloses(ms[i - 1], ms[i]);
      if i > 1 {
        assert Encloses(ms[i - 2], ms[i - 1]);
      }
    }
  }

  /** Every start-up stack is well formed: `start_inline` true leaves the scan in `:php`, false
      in `:template`, and `:guess` in `:root`, whose fallback rule decides. */
  lemma StartIsWellFormed(opt: StartInline)
    ensures WellFormed(Start(opt))
    ensures Top(Start(opt)) == match opt case Inline => Php case NotInline => Template case Guess => Root
  {
    if opt != Guess {
      PushKeepsWellFormed([Root], Template);
      assert [Root] + [Template] == [Root, Template];
      if opt == Inline {
        PushKeepsWellFormed([Root, Template], Php);
        assert [Root, Template] + [Php] == [Root, Template, Php];
      }
    }
  }

  // ---------------------------------------------------------------------------------------
  // Actions

  /** What the word rules make of an identifier-shaped span `w` (at a position where the
      code rules before them do not match): an earlier word rule may take its first segment,
      which ends at the first `\` (where its `\b` holds); the identifier rule then matches
      the remainder, led by that `\`. Otherwise the identifier rule matches the whole span.
      Either way the lexemes cover exactly `w`. */
  function WordLexemes(w: string): (lxs: seq<Lexeme>)
    ensures Sources(lxs) == w
  {
    var early := EarlyWordRule(FirstSegment(w));
    SplitWordCovers(w, early);
    SplitWord(w, early)
  }

  /** The split of `w` when an earlier word rule gives its first segment the kind `early`
      (or none does). */
  function SplitWord(w: string, early: Option<Kind>): seq<Lexeme>
  {
    var seg := FirstSegment(w);
    if early.None? then [Word(w)]
    else if |seg| == |w| then [Fixed(early.value, w)]
    else [Fixed(early.value, seg), Word(w[|seg|..])]
  }

  lemma SplitWordCovers(w: string, early: Option<Kind>)
    ensures Sources(SplitWord(w, early)) == w
  {
    var seg := FirstSegment(w);
    if early.None? {
      SourcesOne(Word(w));
    } else if |seg| == |w| {
      assert seg == w;
      SourcesOne(Fixed(early.value, w));
    } else {
      assert Sources(SplitWord(w, early)) == w by {
        SourcesTwo(Fixed(early.value, seg), Word(w[|seg|..]));
        assert seg + w[|seg|..] == w;
      }
    }
  }

  lemma SourcesOne(lx: Lexeme)
    ensures Sources([lx]) == lx.Source()
  {
    assert [lx][1..] == [];
  }

  lemma SourcesTwo(a: Lexeme, b: Lexeme)
    ensures Sources([a, b]) == a.Source() + b.Source()
  {
    assert [a, b][1..] == [b];
    SourcesOne(b);
  }

  /** A rule of the current mode does not match: one Error token, nothing else changes. */
  function Unmatched(s: LexState, lx: Lexeme): (seq<Token>, LexState)
  {
    ([Token(Error, lx.Source())], s)
  }

  /** The code rules (`:php`, also mixed into both interpolation states). */
  function CodeStep(words: Words, s: LexState, lx: Lexeme): (r: (seq<Token>, LexState))
    requires WellFormed(s.modes) && IsCodeMode(Top(s.modes))
    ensures WellFormed(r.1.modes) && |r.1.modes| >= 2
  {
    WellFormedLayout(s.modes, |s.modes| - 1);
    var m := s.memo;
    match lx
    case CloseTag =>
      PopKeepsWellFormed(s.modes);
      ([Token(CommentPreproc, "?>")], LexState(Popped(s.modes), Fresh))
    case Eq => ([Token(Operator, "=")], s.(memo := OnEq(m)))
    case NsBrace => ([Token(NameNamespace, "\\"), Token(Punctuation, "{")], s)
    case Semi => ([Token(Punctuation, ";")], s.(memo := Fresh))
    case LBrace => ([Token(Punctuation, "{")], s.(memo := Fresh))
    case Comma => ([Token(Punctuation, ",")], s.(memo := OnComma(m)))
    case LParen => ([Token(Punctuation, "(")], s.(memo := OnLParen(m)))
    case RParen => ([Token(Punctuation, ")")], s.(memo := OnRParen(m)))
    case RBrace => ([Token(Punctuation, "}")], s)
    case Word(w) =>
      var (k, m') := Classify(words, Lower(w), m);
      ([Token(k, w)], s.(memo := m'))
    case Fixed(k, t) => ([Token(k, t)], s)
    case Quote =>
      PushKeepsWellFormed(s.modes, Str);
      ([Token(StrDouble, "\"")], s.(modes := s.modes + [Str]))
    case _ => Unmatched(s, lx)
  }

  /** The `:string` rules. */
  function StringStep(s: LexState, lx: Lexeme): (r: (seq<Token>, LexState))
    requires WellFormed(s.modes) && Top(s.modes) == Str
    ensures WellFormed(r.1.modes) && |r.1.modes| >= 2
  {
    WellFormedLayout(s.modes, |s.modes| - 1);
    match lx
    case Quote =>
      PopKeepsWellFormed(s.modes);
      ([Token(StrDouble, "\"")], s.(modes := Popped(s.modes)))
    case Fixed(k, t) => ([Token(k, t)], s)
    case InterpOpenDouble =>
      PushKeepsWellFormed(s.modes, InterpDouble);
      ([Token(StrInterpol, "{${")], s.(modes := s.modes + [InterpDouble]))
    case InterpOpenSingle =>
      PushKeepsWellFormed(s.modes, InterpSingle);
      ([Token(StrInterpol, "{")], s.(modes := s.modes + [InterpSingle]))
    case _ => Unmatched(s, lx)
  }

  /** The `:template` rules: an open tag pushes `:php`; other text is delegated. */
  function TemplateStep(s: LexState, lx: Lexeme): (r: (seq<Token>, LexState))
    requires WellFormed(s.modes) && Top(s.modes) == Template
    ensures WellFormed(r.1.modes) && |r.1.modes| >= 2
  {
    WellFormedLayout(s.modes, |s.modes| - 1);
    match lx
    case OpenTag(t) =>
      PushKeepsWellFormed(s.modes, Php);
      ([Token(CommentPreproc, t)], s.(modes := s.modes + [Php]))
    case HostText(t) => ([Token(Delegated, t)], s)
    case _ => Unmatched(s, lx)
  }

  /** The state in which the code rules run: in `:root` the empty fallback rule first pushes
      `:template` and `:php` without consuming input. */
  function EnterCode(s: LexState): (s': LexState)
    requires WellFormed(s.modes) && (Top(s.modes) == Root || IsCodeMode(Top(s.modes)))
    ensures WellFormed(s'.modes) && IsCodeMode(Top(s'.modes)) && s'.memo == s.memo
    ensures Top(s.modes) == Root ==> s'.modes == s.modes + [Template, Php]
    ensures Top(s.modes) != Root ==> s' == s
  {
    var ms := s.modes;
    if Top(ms) == Root then
      PushKeepsWellFormed(ms, Template);
      PushKeepsWellFormed(ms + [Template], Php);
      assert ms + [Template] + [Php] == ms + [Template, Php];
      s.(modes := ms + [Template, Php])
    else s
  }

  /** One scanning step in the mode on top of the stack. In `:root` a span the heuristics
      delegate pushes `:template`; any other lexeme meets the empty fallback rule and is
      scanned by the code rules. The interpolation states try their closing brace(s) first
      and otherwise run the code rules they mix in. */
  function Step(words: Words, s: LexState, lx: Lexeme): (r: (seq<Token>, LexState))
    requires WellFormed(s.modes)
    ensures WellFormed(r.1.modes) && |r.1.modes| >= 2
  {
    var ms := s.modes;
    WellFormedLayout(ms, |ms| - 1);
    var top := Top(ms);
    if top == Root && lx.HostText? then
      PushKeepsWellFormed(ms, Template);
      ([Token(Delegated, lx.text)], s.(modes := ms + [Template]))
    else if top == Template then TemplateStep(s, lx)
    else if top == Str then StringStep(s, lx)
    else if (top == InterpDouble && lx.RBraces?) || (top == InterpSingle && lx.RBrace?) then
      PopKeepsWellFormed(ms);
      ([Token(StrInterpol, lx.Source())], s.(modes := Popped(ms)))
    else CodeStep(words, EnterCode(s), lx)
  }

  /** Scanning a lexeme sequence: the tokens in emission order and the final state. */
  function Run(words: Words, s: LexState, lxs: seq<Lexeme>): (r: (seq<Token>, LexState))
    requires WellFormed(s.modes)
    ensures WellFormed(r.1.modes)
    decreases |lxs|
  {
    if lxs == [] then ([], s)
    else
      var (ts, s') := Step(words, s, lxs[0]);
      var (ts', s'') := Run(words, s', lxs[1..]);
      (ts + ts', s'')
  }

  /** A whole scan: `reset!` and the `start` block, then every lexeme. The memoizer is not
      reset here; it carries over from whatever the lexer object last saw. */
  function Lex(opt: StartInline, words: Words, memo: Memo, lxs: seq<Lexeme>): (r: (seq<Token>, LexState))
  {
    Run(words, LexState(Start(opt), memo), lxs)
  }
}
