/** The lexer of the entry-definition format (plover_hatchery_lib_rs/src/defs/parse/lex.rs):
    it splits a line into Whitespace, Chars and Symbol tokens. Runs of whitespace and
    runs of identifier characters become one token each; every symbol character is a
    token of its own. */
module Lex {
  import opened Wrappers
  import opened Text

  datatype TokenClass = Start | Whitespace | Chars | Symbol

  datatype Token = Token(kind: TokenClass, value: string)

  /** ' ' is whitespace; letters, digits and `-@#^':` are identifier characters;
      everything else is a symbol (lex.rs:62-70). */
  function ClassOf(c: char): (k: TokenClass)
    ensures k != Start
    ensures k == Whitespace <==> c == ' '
  {
    if c == ' ' then Whitespace
    else if IsAlphanumeric(c) || c in "-@#^':" then Chars
    else Symbol
  }

  /** The lexer's state: the class of the pending token and its text. */
  datatype LexState = LexState(state: TokenClass, current: string)

  /** The lexer before any character (lex.rs:27-32). */
  const INITIAL: LexState := LexState(Start, "")

  /** One character of class `target`: it extends the pending token when that token has
      the same class and is not a symbol; otherwise the pending token (if there is one)
      is emitted and the character starts a new one (lex.rs:34-51). */
  function StepState(ls: LexState, ch: char, target: TokenClass): (r: (LexState, Option<Token>))
    ensures r.0.state == target
    ensures ls.state != Symbol && ls.state == target ==> r.0.current == ls.current + [ch] && r.1.None?
    ensures !(ls.state != Symbol && ls.state == target) ==> r.0.current == [ch]
    ensures r.1.Some? ==> r.1.value == Token(ls.state, ls.current)
    ensures r.1.Some? <==> ls.state != Start && (ls.state == Symbol || ls.state != target)
  {
    if ls.state != Symbol && ls.state == target then (LexState(target, ls.current + [ch]), None)
    else
      var token := if ls.state != Start then Some(Token(ls.state, ls.current)) else None;
      (LexState(target, [ch]), token)
  }

  /** The state and the emitted tokens after feeding the characters of `s` in order
      (the loop of lex.rs:62-74). */
  function Scan(s: string): (r: (LexState, seq<Token>))
    decreases |s|
  {
    if |s| == 0 then (INITIAL, [])
    else
      var prev := Scan(s[..|s| - 1]);
      var ch := s[|s| - 1];
      var st := StepState(prev.0, ch, ClassOf(ch));
      (st.0, prev.1 + (if st.1.Some? then [st.1.value] else []))
  }

  /** The tokens of a line: everything emitted, then the pending token, which is always
      emitted, even for an empty line (lex.rs:53-55, 58-78). */
  function LexSophemeSequence(s: string): (r: seq<Token>)
    ensures |r| >= 1
  {
    var sc := Scan(s);
    sc.1 + [Token(sc.0.state, sc.0.current)]
  }

  /** The token values concatenated. */
  function Values(ts: seq<Token>): string
    decreases |ts|
  {
    if |ts| == 0 then "" else Values(ts[..|ts| - 1]) + ts[|ts| - 1].value
  }

  lemma {:induction false} ValuesAppend(a: seq<Token>, b: seq<Token>)
    ensures Values(a + b) == Values(a) + Values(b)
    decreases |b|
  {
    if |b| == 0 {
      assert a + b == a;
    } else {
      assert (a + b)[..|a + b| - 1] == a + b[..|b| - 1];
      ValuesAppend(a, b[..|b| - 1]);
      AppendAssoc(Values(a), Values(b[..|b| - 1]), b[|b| - 1].value);
    }
  }

  /** A token the lexer can produce from a non-empty line: not of class Start, not
      empty, every character of the token's class, and a symbol token is one character. */
  predicate WellFormedToken(t: Token) {
    t.kind != Start && |t.value| > 0
    && (forall i :: 0 <= i < |t.value| ==> ClassOf(t.value[i]) == t.kind)
    && (t.kind == Symbol ==> |t.value| == 1)
  }

  /** Two neighbouring tokens never share a class, except symbol tokens. */
  predicate Separated(ts: seq<Token>) {
    forall k :: 0 <= k < |ts| - 1 ==> ts[k].kind == Symbol || ts[k].kind != ts[k + 1].kind
  }

  predicate Lexable(ts: seq<Token>) {
    (forall i :: 0 <= i < |ts| ==> WellFormedToken(ts[i])) && Separated(ts)
  }

  /** What holds after scanning a prefix: the emitted tokens and the pending text
      spell the prefix; the state is Start exactly before the first character; after it
      the pending token and everything emitted are well formed and separated. */
  lemma {:induction false} ScanProps(s: string)
    ensures Values(Scan(s).1) + Scan(s).0.current == s
    ensures |s| == 0 <==> Scan(s).0.state == Start
    ensures |s| > 0 ==> Lexable(Scan(s).1 + [Token(Scan(s).0.state, Scan(s).0.current)])
    decreases |s|
  {
    if |s| > 0 {
      var p := s[..|s| - 1];
      var ch := s[|s| - 1];
      ScanProps(p);
      var prev := Scan(p);
      var st := StepState(prev.0, ch, ClassOf(ch));
      var toks := Scan(s).1;
      assert Scan(s) == (st.0, prev.1 + (if st.1.Some? then [st.1.value] else []));
      assert s == p + [ch];
      if st.1.Some? {
        ValuesAppend(prev.1, [st.1.value]);
        assert Values([st.1.value]) == prev.0.current by {
          assert [st.1.value][..0] == [];
        }
        if |p| > 0 {
          EmitLexable(prev.1, Token(prev.0.state, prev.0.current), ch);
        }
      } else if |p| > 0 {
        assert toks == prev.1;
        AppendAssoc(Values(prev.1), prev.0.current, [ch]);
        ExtendLexable(prev.1, Token(prev.0.state, prev.0.current), ch);
      } else {
        assert prev == (INITIAL, []);
      }
    }
  }

  /** Emitting the pending token and starting a new one of another class (or after a
      symbol) keeps the tokens lexable. */
  lemma EmitLexable(toks: seq<Token>, pend: Token, ch: char)
    requires Lexable(toks + [pend])
    requires pend.kind == Symbol || pend.kind != ClassOf(ch)
    ensures Lexable(toks + [pend] + [Token(ClassOf(ch), [ch])])
  {
    var all := toks + [pend] + [Token(ClassOf(ch), [ch])];
    forall k | 0 <= k < |all| - 1
      ensures all[k].kind == Symbol || all[k].kind != all[k + 1].kind
    {
      assert all[k] == (toks + [pend])[k];
      if k + 1 < |toks| + 1 {
        assert all[k + 1] == (toks + [pend])[k + 1];
      }
    }
    forall i | 0 <= i < |all|
      ensures WellFormedToken(all[i])
    {
      if i < |toks| + 1 {
        assert all[i] == (toks + [pend])[i];
      }
    }
  }

  /** Adding a character of the pending token's class to a non-symbol pending token
      keeps the tokens lexable. */
  lemma ExtendLexable(toks: seq<Token>, pend: Token, ch: char)
    requires Lexable(toks + [pend])
    requires pend.kind != Symbol && pend.kind == ClassOf(ch)
    ensures Lexable(toks + [Token(pend.kind, pend.value + [ch])])
  {
    var last := Token(pend.kind, pend.value + [ch]);
    var all := toks + [last];
    var before := toks + [pend];
    assert before[|toks|] == pend;
    assert WellFormedToken(last) by {
      forall i | 0 <= i < |last.value|
        ensures ClassOf(last.value[i]) == last.kind
      {
        if i < |pend.value| {
          assert last.value[i] == pend.value[i];
        }
      }
    }
    forall i | 0 <= i < |all|
      ensures WellFormedToken(all[i])
    {
      if i < |toks| {
        assert all[i] == before[i];
      }
    }
    forall k | 0 <= k < |all| - 1
      ensures all[k].kind == Symbol || all[k].kind != all[k + 1].kind
    {
      assert before[k] == all[k];
      assert before[k + 1].kind == all[k + 1].kind;
    }
  }

  /** Concatenating the token values gives back the line (lex.rs:34-56, 58-78). */
  lemma LexConcatenates(s: string)
    ensures Values(LexSophemeSequence(s)) == s
  {
    ScanProps(s);
    ValuesAppend(Scan(s).1, [Token(Scan(s).0.state, Scan(s).0.current)]);
    assert Values([Token(Scan(s).0.state, Scan(s).0.current)]) == Scan(s).0.current by {
      assert [Token(Scan(s).0.state, Scan(s).0.current)][..0] == [];
    }
  }

  /** An empty line gives one empty Start token; any other line gives well-formed,
      separated tokens, none of them of class Start (lex.rs:27-32, 41-48, 53-55, 76). */
  lemma LexShape(s: string)
    ensures s == "" ==> LexSophemeSequence(s) == [Token(Start, "")]
    ensures s != "" ==> Lexable(LexSophemeSequence(s))
    ensures s != "" ==> forall i :: 0 <= i < |LexSophemeSequence(s)| ==> LexSophemeSequence(s)[i].kind != Start
  {
    ScanProps(s);
  }

  /** Scanning one more run of characters of one class, after a pending token that it
      cannot extend: the pending token is emitted and the run becomes pending. */
  lemma {:induction false} ScanRun(s: string, run: string, c: TokenClass)
    requires |run| > 0 && forall i :: 0 <= i < |run| ==> ClassOf(run[i]) == c
    requires c == Symbol ==> |run| == 1
    requires Scan(s).0.state == Start || Scan(s).0.state == Symbol || Scan(s).0.state != c
    ensures Scan(s + run).0 == LexState(c, run)
    ensures Scan(s + run).1 == Scan(s).1 + (if Scan(s).0.state != Start then [Token(Scan(s).0.state, Scan(s).0.current)] else [])
    decreases |run|
  {
    var ch := run[|run| - 1];
    var front := run[..|run| - 1];
    assert run == front + [ch];
    if |run| == 1 {
      assert run == [ch];
      ScanSnoc(s, ch);
    } else {
      assert forall i :: 0 <= i < |front| ==> front[i] == run[i];
      ScanRun(s, front, c);
      ScanSnoc(s + front, ch);
      AppendAssoc(s, front, [ch]);
    }
  }

  /** Scanning one more character is one step of the lexer. */
  lemma ScanSnoc(p: string, ch: char)
    ensures Scan(p + [ch]) == (StepState(Scan(p).0, ch, ClassOf(ch)).0,
                               Scan(p).1 + (if StepState(Scan(p).0, ch, ClassOf(ch)).1.Some?
                                            then [StepState(Scan(p).0, ch, ClassOf(ch)).1.value] else []))
  {
    assert (p + [ch])[..|p|] == p;
  }

  /** Scanning the values of well-formed separated tokens leaves the last token pending
      and emits the others. */
  lemma {:induction false} ScanValues(ts: seq<Token>)
    requires |ts| > 0 && Lexable(ts)
    ensures Scan(Values(ts)) == (LexState(ts[|ts| - 1].kind, ts[|ts| - 1].value), ts[..|ts| - 1])
    decreases |ts|
  {
    var t := ts[|ts| - 1];
    var front := ts[..|ts| - 1];
    if |ts| == 1 {
      assert Values(ts) == Values([]) + t.value;
      assert "" + t.value == t.value;
      ScanRun("", t.value, t.kind);
    } else {
      assert Lexable(front) by {
        forall k | 0 <= k < |front| - 1
          ensures front[k].kind == Symbol || front[k].kind != front[k + 1].kind
        {
          assert front[k] == ts[k] && front[k + 1] == ts[k + 1];
        }
      }
      ScanValues(front);
      var prev := front[|front| - 1];
      assert prev == ts[|ts| - 2];
      ScanRun(Values(front), t.value, t.kind);
      assert front[..|front| - 1] + [prev] == front;
    }
  }

  /** Lexing the concatenated values of well-formed, separated tokens gives back exactly
      those tokens: the lexer splits at every class change and after every symbol. */
  lemma LexOfValues(ts: seq<Token>)
    requires |ts| > 0 && Lexable(ts)
    ensures LexSophemeSequence(Values(ts)) == ts
  {
    ScanValues(ts);
    assert ts[..|ts| - 1] + [ts[|ts| - 1]] == ts;
  }

  /** The lexer of lex.rs:21-24, whose state changes with every character. */
  class Lexer {
    var state: TokenClass
    var currentToken: string

    function State(): LexState
      reads this
    {
      LexState(state, currentToken)
    }

    /** Start with no pending text (lex.rs:27-32). */
    constructor ()
      ensures State() == INITIAL
    {
      state := Start;
      currentToken := "";
    }

    /** lex.rs:34-51. */
    method Step(ch: char, targetState: TokenClass) returns (token: Option<Token>)
      modifies this
      ensures (State(), token) == StepState(old(State()), ch, targetState)
    {
      if state != Symbol && state == targetState {
        state := targetState;
        currentToken := currentToken + [ch];
        return None;
      }
      token := if state != Start then Some(Token(state, currentToken)) else None;
      state := targetState;
      currentToken := [ch];
    }

    /** The pending token (lex.rs:53-55). */
    method StepEol() returns (token: Token)
      ensures token == Token(state, currentToken)
    {
      token := Token(state, currentToken);
    }
  }

  /** lex.rs:58-78: feed every character to a fresh lexer, collect what it emits, then
      its pending token. */
  method Lex(s: string) returns (tokens: seq<Token>)
    ensures tokens == LexSophemeSequence(s)
  {
    var lexer := new Lexer();
    tokens := [];
    for i := 0 to |s|
      invariant (lexer.State(), tokens) == Scan(s[..i])
    {
      var ch := s[i];
      var target := if ch == ' ' then Whitespace
        else if IsAlphanumeric(ch) || ch in "-@#^':" then Chars
        else Symbol;
      assert target == ClassOf(ch);
      ghost var before := Scan(s[..i]);
      assert before.0 == lexer.State();
      var token := lexer.Step(ch, target);
      assert (lexer.State(), token) == StepState(before.0, ch, ClassOf(ch));
      if token.Some? {
        tokens := tokens + [token.value];
      }
      assert s[..i + 1][..i] == s[..i] && s[..i + 1][i] == ch;
      assert Scan(s[..i + 1]) == (StepState(before.0, ch, ClassOf(ch)).0,
                                  before.1 + (if StepState(before.0, ch, ClassOf(ch)).1.Some? then [StepState(before.0, ch, ClassOf(ch)).1.value] else []));
      assert lexer.State() == Scan(s[..i + 1]).0;
      assert tokens == Scan(s[..i + 1]).1;
    }
    assert s[..|s|] == s;
    var last := lexer.StepEol();
    tokens := tokens + [last];
  }
}
