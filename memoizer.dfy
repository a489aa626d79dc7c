/** The identifier-classification memoizer (`PHP::Stack`): the statement the lexer believes it
    is inside, the kind a bare identifier gets by default, and a LIFO of kinds deferred to the
    next identifiers. `Memo` is its value; `Stack` is the mutable object the lexer owns. */
module Memoizer {
  import opened Tokens

  /** `@statement`: `nil` (NoStatement), `:use`, `:class`, `:const` or `:function`. */
  datatype Statement = NoStatement | Use | Class | Const | Function

  /** The three fields of the memoizer, as a value. */
  datatype Memo = Memo(statement: Statement, default: Kind, stack: seq<Kind>)
  {
    /** `none?`: no statement is in progress. */
    predicate IsNone()
    {
      statement == NoStatement
    }

    /** `push(kind)`: defer `k` to the next identifier. */
    function Push(k: Kind): Memo
    {
      this.(stack := stack + [k])
    }

    /** `pop`: the most recently deferred kind, or the default when nothing is deferred;
        paired with the memoizer left behind. */
    function Pop(): (Kind, Memo)
    {
      if stack == [] then (default, this)
      else (stack[|stack| - 1], this.(stack := stack[..|stack| - 1]))
    }

    /** `empty`: drop every deferred kind. */
    function Empty(): Memo
    {
      this.(stack := [])
    }
  }

  /** The state `reset` (and `initialize`) establishes. */
  const Fresh := Memo(NoStatement, NameOther, [])

  /** `pop` never fails: it yields the top of the stack, or the default on an empty stack,
      and it never touches the statement or the default. */
  lemma PopYieldsTopOrDefault(m: Memo)
    ensures m.Pop().1.statement == m.statement && m.Pop().1.default == m.default
    ensures m.stack == [] ==> m.Pop() == (m.default, m)
    ensures m.stack != [] ==> m.Pop().1.stack + [m.Pop().0] == m.stack
  {
  }

  /** `push` then `pop` returns the pushed kind and restores the memoizer. */
  lemma PushThenPop(m: Memo, k: Kind)
    ensures m.Push(k).Pop() == (k, m)
  {
    assert (m.stack + [k])[..|m.stack|] == m.stack;
  }

  /** Conversely, pushing back what `pop` took from a non-empty stack restores the memoizer. */
  lemma PopThenPush(m: Memo)
    requires m.stack != []
    ensures m.Pop().1.Push(m.Pop().0) == m
  {
    assert m.stack[..|m.stack| - 1] + [m.stack[|m.stack| - 1]] == m.stack;
  }

  /** `empty` clears only the stack; a later `pop` falls back to the default. */
  lemma EmptyClearsOnlyStack(m: Memo)
    ensures m.Empty().statement == m.statement && m.Empty().default == m.default
    ensures m.Empty().Pop() == (m.default, m.Empty())
  {
  }

  /** The mutable memoizer object (`PHP::Stack`); `State` is its value. */
  class Stack {
    var statement: Statement
    var default: Kind
    var stack: seq<Kind>

    /** The three fields as a `Memo`. */
    function State(): Memo
      reads this
    {
      Memo(statement, default, stack)
    }

    /** `initialize`: calls `reset`. */
    constructor ()
      ensures State() == Fresh
    {
      statement, default, stack := NoStatement, NameOther, [];
    }

    /** `set(stmt, default, stack = [])`: replaces all three fields. */
    method Set(stmt: Statement, dflt: Kind, st: seq<Kind>)
      modifies this
      ensures statement == stmt && default == dflt && stack == st
    {
      statement, default, stack := stmt, dflt, st;
    }

    /** `none?` */
    predicate IsNone()
      reads this
    {
      statement == NoStatement
    }

    /** `reset`: no statement, nothing deferred, default Name::Other. */
    method Reset()
      modifies this
      ensures State() == Fresh
      ensures IsNone() && stack == [] && default == NameOther
    {
      stack := [];
      statement := NoStatement;
      default := NameOther;
    }

    /** `push(kind)` */
    method Push(k: Kind)
      modifies this
      ensures stack == old(stack) + [k]
      ensures statement == old(statement) && default == old(default)
    {
      stack := stack + [k];
    }

    /** `pop`: `@stack.pop || @default`. */
    method Pop() returns (k: Kind)
      modifies this
      ensures old(stack) == [] ==> k == default && stack == []
      ensures old(stack) != [] ==> k == old(stack)[|old(stack)| - 1] && stack == old(stack)[..|old(stack)| - 1]
      ensures statement == old(statement) && default == old(default)
      ensures (k, State()) == old(State()).Pop()
    {
      if stack == [] {
        k := default;
      } else {
        k := stack[|stack| - 1];
        stack := stack[..|stack| - 1];
      }
    }

    /** `empty`: clears the stack, keeps statement and default. */
    method Empty()
      modifies this
      ensures stack == [] && statement == old(statement) && default == old(default)
    {
      stack := [];
    }
  }
}
