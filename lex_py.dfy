/** The Python lexer of the entry-definition format
    (plover_hatchery/lib/sopheme/parse/lex_sopheme_sequence.py). It classifies characters
    as in the Rust lexer but with "-/@" as the extra identifier characters, and it merges
    every run of one class into a token, symbol runs included. The flag `mergeSymbols`
    selects that behaviour (true) or the one-token-per-symbol behaviour of lex.rs
    (false), which is what the Python parser needs; see the README's findings. */
module LexPy {
  import opened Wrappers
  import opened Text
  import opened Lex

  /** ' ' is whitespace; letters, digits and "-/@" are identifier characters; everything
      else is a symbol (lex_sopheme_sequence.py:37-43). */
  function PyClassOf(c: char): (k: TokenClass)
    ensures k != Start
    ensures k == Whitespace <==> c == ' '
    ensures k == Chars <==> IsAlphanumeric(c) || c in "-/@"
  {
    if c == ' ' then Whitespace
    else if IsAlphanumeric(c) || c in "-/@" then Chars
    else Symbol
  }

  /** Whether a character of class `target` extends the pending token. */
  predicate Extends(ls: LexState, target: TokenClass, mergeSymbols: bool) {
    ls.state == target && (mergeSymbols || target != Symbol)
  }

  /** One character of class `target`: it extends a pending token of the same class;
      otherwise the pending token, if any, is emitted and the character starts a new one
      (lex_sopheme_sequence.py:20-28). */
  function PyStepState(ls: LexState, ch: char, target: TokenClass, mergeSymbols: bool): (r: (LexState, Option<Token>))
    ensures r.0.state == target
    ensures Extends(ls, target, mergeSymbols) ==> r.0.current == ls.current + [ch] && r.1.None?
    ensures !Extends(ls, target, mergeSymbols) ==> r.0.current == [ch]
    ensures r.1.Some? <==> ls.state != Start && !Extends(ls, target, mergeSymbols)
    ensures r.1.Some? ==> r.1.value == Token(ls.state, ls.current)
  {
    if Extends(ls, target, mergeSymbols) then (LexState(target, ls.current + [ch]), None)
    else
      var token := if ls.state != Start then Some(Token(ls.state, ls.current)) else None;
      (LexState(target, [ch]), token)
  }

  /** Without merging, a step is the Rust lexer's step. */
  lemma StepWithoutMergeIsRust(ls: LexState, ch: char, target: TokenClass)
    ensures PyStepState(ls, ch, target, false) == StepState(ls, ch, target)
  {
  }

  /** The state and the emitted tokens after the characters of `s`
      (the loop of lex_sopheme_sequence.py:37-43). */
  function PyScan(s: string, mergeSymbols: bool): (r: (LexState, seq<Token>))
    decreases |s|
  {
    if |s| == 0 then (INITIAL, [])
    else
      var prev := PyScan(s[..|s| - 1], mergeSymbols);
      var ch := s[|s| - 1];
      var st := PyStepState(prev.0, ch, PyClassOf(ch), mergeSymbols);
      (st.0, prev.1 + (if st.1.Some? then [st.1.value] else []))
  }

  /** Everything emitted, then the pending token, which is always emitted: a Start token
      with value "" for an empty line (lex_sopheme_sequence.py:30-31, 34-45). */
  function PyLexSophemeSequence(s: string, mergeSymbols: bool): (r: seq<Token>)
    ensures |r| >= 1
  {
    Pending(PyScan(s, mergeSymbols))
  }

  /** A token of a non-empty line: not of class Start, not empty, every character of the
      token's class. */
  predicate PyWellFormedToken(t: Token) {
    t.kind != Start && |t.value| > 0
    && forall i :: 0 <= i < |t.value| ==> PyClassOf(t.value[i]) == t.kind
  }

  /** Merged tokens: neighbours always differ in class. Split symbols: a symbol token is
      one character, and only symbol tokens may follow a token of their class. */
  predicate PyLexable(ts: seq<Token>, mergeSymbols: bool) {
    (forall i :: 0 <= i < |ts| ==> PyWellFormedToken(ts[i]))
    && (mergeSymbols ==> forall k :: 0 <= k < |ts| - 1 ==> ts[k].kind != ts[k + 1].kind)
    && (!mergeSymbols ==> forall i :: 0 <= i < |ts| && ts[i].kind == Symbol ==> |ts[i].value| == 1)
    && (!mergeSymbols ==> forall k :: 0 <= k < |ts| - 1 ==> ts[k].kind == Symbol || ts[k].kind != ts[k + 1].kind)
  }

  /** The pending token extended by one character is still well formed. */
  lemma ExtendWellFormed(pend: Token, ch: char)
    requires PyWellFormedToken(pend) && PyClassOf(ch) == pend.kind
    ensures PyWellFormedToken(Token(pend.kind, pend.value + [ch]))
  {
    var last := Token(pend.kind, pend.value + [ch]);
    forall i | 0 <= i < |last.value|
      ensures PyClassOf(last.value[i]) == last.kind
    {
      if i < |pend.value| {
        assert last.value[i] == pend.value[i];
      }
    }
  }

  /** Replacing the last token by a longer one of the same class keeps a sequence
      lexable, as long as a split symbol is not lengthened. */
  lemma ReplaceLastLexable(front: seq<Token>, pend: Token, last: Token, mergeSymbols: bool)
    requires PyLexable(front + [pend], mergeSymbols)
    requires PyWellFormedToken(last) && last.kind == pend.kind
    requires !mergeSymbols && last.kind == Symbol ==> |last.value| == 1
    ensures PyLexable(front + [last], mergeSymbols)
  {
    var a := front + [pend];
    var b := front + [last];
    forall i | 0 <= i < |b|
      ensures PyWellFormedToken(b[i])
      ensures !mergeSymbols && b[i].kind == Symbol ==> |b[i].value| == 1
    {
      if i < |front| {
        assert b[i] == a[i];
      }
    }
    forall k | 0 <= k < |b| - 1
      ensures mergeSymbols ==> b[k].kind != b[k + 1].kind
      ensures !mergeSymbols ==> b[k].kind == Symbol || b[k].kind != b[k + 1].kind
    {
      assert b[k] == a[k];
      if k + 1 < |front| {
        assert b[k + 1] == a[k + 1];
      } else {
        assert b[k + 1].kind == a[k + 1].kind;
      }
    }
  }

  /** Appending a token that differs from the last in class (or follows a split symbol)
      keeps a sequence lexable. */
  lemma AppendLexable(ts: seq<Token>, t: Token, mergeSymbols: bool)
    requires PyLexable(ts, mergeSymbols) && |ts| > 0 && PyWellFormedToken(t)
    requires !mergeSymbols && t.kind == Symbol ==> |t.value| == 1
    requires mergeSymbols ==> ts[|ts| - 1].kind != t.kind
    requires !mergeSymbols ==> ts[|ts| - 1].kind == Symbol || ts[|ts| - 1].kind != t.kind
    ensures PyLexable(ts + [t], mergeSymbols)
  {
    var b := ts + [t];
    forall i | 0 <= i < |b|
      ensures PyWellFormedToken(b[i])
      ensures !mergeSymbols && b[i].kind == Symbol ==> |b[i].value| == 1
    {
      if i < |ts| {
        assert b[i] == ts[i];
      }
    }
    forall k | 0 <= k < |b| - 1
      ensures mergeSymbols ==> b[k].kind != b[k + 1].kind
      ensures !mergeSymbols ==> b[k].kind == Symbol || b[k].kind != b[k + 1].kind
    {
      assert b[k] == ts[k];
      if k + 1 < |ts| {
        assert b[k + 1] == ts[k + 1];
      }
    }
  }

  /** After scanning a prefix: the emitted tokens and the pending text spell the
      prefix; the state is Start exactly before the first character; after it, the
      emitted tokens and the pending one are lexable. */
  lemma {:induction false} PyScanProps(s: string, mergeSymbols: bool)
    ensures Values(PyScan(s, mergeSymbols).1) + PyScan(s, mergeSymbols).0.current == s
    ensures |s| == 0 <==> PyScan(s, mergeSymbols).0.state == Start
    ensures |s| > 0 ==> PyLexable(Pending(PyScan(s, mergeSymbols)), mergeSymbols)
    decreases |s|
  {
    if |s| > 0 {
      var p := s[..|s| - 1];
      var ch := s[|s| - 1];
      PyScanProps(p, mergeSymbols);
      assert s == p + [ch];
      var prev := PyScan(p, mergeSymbols);
      if |p| == 0 {
        assert prev == (INITIAL, []);
        PyScanSnoc(p, ch, mergeSymbols);
      } else if PyStepState(prev.0, ch, PyClassOf(ch), mergeSymbols).1.Some? {
        ScanEmitStep(p, ch, mergeSymbols);
      } else {
        ScanExtendStep(p, ch, mergeSymbols);
      }
    }
  }

  /** The emitted tokens followed by the pending one. */
  function Pending(sc: (LexState, seq<Token>)): seq<Token> {
    sc.1 + [Token(sc.0.state, sc.0.current)]
  }

  /** Scanning one more character. */
  lemma PyScanSnoc(p: string, ch: char, mergeSymbols: bool)
    ensures PyScan(p + [ch], mergeSymbols)
         == (PyStepState(PyScan(p, mergeSymbols).0, ch, PyClassOf(ch), mergeSymbols).0,
             if PyStepState(PyScan(p, mergeSymbols).0, ch, PyClassOf(ch), mergeSymbols).1.Some?
             then PyScan(p, mergeSymbols).1 + [PyStepState(PyScan(p, mergeSymbols).0, ch, PyClassOf(ch), mergeSymbols).1.value]
             else PyScan(p, mergeSymbols).1)
  {
    var s := p + [ch];
    assert s[..|s| - 1] == p && s[|s| - 1] == ch;
    assert PyScan(p, mergeSymbols).1 + [] == PyScan(p, mergeSymbols).1;
  }

  /** The step of PyScanProps where the pending token is emitted. */
  lemma ScanEmitStep(p: string, ch: char, mergeSymbols: bool)
    requires Values(PyScan(p, mergeSymbols).1) + PyScan(p, mergeSymbols).0.current == p
    requires PyScan(p, mergeSymbols).0.state != Start
    requires PyLexable(Pending(PyScan(p, mergeSymbols)), mergeSymbols)
    requires PyStepState(PyScan(p, mergeSymbols).0, ch, PyClassOf(ch), mergeSymbols).1.Some?
    ensures Values(PyScan(p + [ch], mergeSymbols).1) + PyScan(p + [ch], mergeSymbols).0.current == p + [ch]
    ensures PyScan(p + [ch], mergeSymbols).0.state != Start
    ensures PyLexable(Pending(PyScan(p + [ch], mergeSymbols)), mergeSymbols)
  {
    var prev := PyScan(p, mergeSymbols);
    var pend := Token(prev.0.state, prev.0.current);
    PyScanSnoc(p, ch, mergeSymbols);
    assert PyScan(p + [ch], mergeSymbols) == (LexState(PyClassOf(ch), [ch]), prev.1 + [pend]);
    EmitLexable(prev.1, pend, ch, mergeSymbols);
  }

  lemma EmitLexable(front: seq<Token>, pend: Token, ch: char, mergeSymbols: bool)
    requires PyLexable(front + [pend], mergeSymbols)
    requires pend.kind != Start && !Extends(LexState(pend.kind, pend.value), PyClassOf(ch), mergeSymbols)
    ensures Values(front + [pend]) == Values(front) + pend.value
    ensures PyLexable(front + [pend] + [Token(PyClassOf(ch), [ch])], mergeSymbols)
  {
    ValuesAppend(front, [pend]);
    assert Values([pend]) == pend.value by {
      assert [pend][..0] == [];
    }
    AppendLexable(front + [pend], Token(PyClassOf(ch), [ch]), mergeSymbols);
  }

  /** The step of PyScanProps where the pending token grows. */
  lemma ScanExtendStep(p: string, ch: char, mergeSymbols: bool)
    requires Values(PyScan(p, mergeSymbols).1) + PyScan(p, mergeSymbols).0.current == p
    requires PyScan(p, mergeSymbols).0.state != Start
    requires PyLexable(Pending(PyScan(p, mergeSymbols)), mergeSymbols)
    requires PyStepState(PyScan(p, mergeSymbols).0, ch, PyClassOf(ch), mergeSymbols).1.None?
    ensures Values(PyScan(p + [ch], mergeSymbols).1) + PyScan(p + [ch], mergeSymbols).0.current == p + [ch]
    ensures PyScan(p + [ch], mergeSymbols).0.state != Start
    ensures PyLexable(Pending(PyScan(p + [ch], mergeSymbols)), mergeSymbols)
  {
    var prev := PyScan(p, mergeSymbols);
    var pend := Token(prev.0.state, prev.0.current);
    PyScanSnoc(p, ch, mergeSymbols);
    assert PyScan(p + [ch], mergeSymbols) == (LexState(pend.kind, pend.value + [ch]), prev.1);
    AppendAssoc(Values(prev.1), prev.0.current, [ch]);
    assert (prev.1 + [pend])[|prev.1|] == pend;
    ExtendWellFormed(pend, ch);
    ReplaceLastLexable(prev.1, pend, Token(pend.kind, pend.value + [ch]), mergeSymbols);
  }

  /** Concatenating the token values gives back the line (lex_sopheme_sequence.py:20-45). */
  lemma PyLexConcatenates(s: string, mergeSymbols: bool)
    ensures Values(PyLexSophemeSequence(s, mergeSymbols)) == s
  {
    var sc := PyScan(s, mergeSymbols);
    PyScanProps(s, mergeSymbols);
    ValuesAppend(sc.1, [Token(sc.0.state, sc.0.current)]);
    assert Values([Token(sc.0.state, sc.0.current)]) == sc.0.current by {
      assert [Token(sc.0.state, sc.0.current)][..0] == [];
    }
  }

  /** An empty line gives one Start token with value ""; any other line gives lexable
      tokens, so no Start token (lex_sopheme_sequence.py:16-18, 30-31, 45). */
  lemma PyLexShape(s: string, mergeSymbols: bool)
    ensures s == "" ==> PyLexSophemeSequence(s, mergeSymbols) == [Token(Start, "")]
    ensures s != "" ==> PyLexable(PyLexSophemeSequence(s, mergeSymbols), mergeSymbols)
  {
    PyScanProps(s, mergeSymbols);
  }

  /** Scanning a run of characters of one class after a pending token that the run
      cannot extend: that token is emitted and the run becomes the pending token. */
  lemma {:induction false} PyScanRun(s: string, run: string, c: TokenClass, mergeSymbols: bool)
    requires |run| > 0 && forall i :: 0 <= i < |run| ==> PyClassOf(run[i]) == c
    requires !mergeSymbols && c == Symbol ==> |run| == 1
    requires PyScan(s, mergeSymbols).0.state == Start || !Extends(PyScan(s, mergeSymbols).0, c, mergeSymbols)
    ensures PyScan(s + run, mergeSymbols) == (LexState(c, run), Flushed(PyScan(s, mergeSymbols)))
    decreases |run|
  {
    var ch := run[|run| - 1];
    var front := run[..|run| - 1];
    assert run == front + [ch];
    if |run| == 1 {
      assert run == [ch];
      PyScanRunOne(s, ch, c, mergeSymbols);
    } else {
      assert forall i :: 0 <= i < |front| ==> front[i] == run[i];
      PyScanRun(s, front, c, mergeSymbols);
      PyScanRunStep(s, front, ch, mergeSymbols);
      AppendAssoc(s, front, [ch]);
    }
  }

  /** The emitted tokens, followed by the pending one unless nothing was scanned. */
  function Flushed(sc: (LexState, seq<Token>)): seq<Token> {
    if sc.0.state != Start then sc.1 + [Token(sc.0.state, sc.0.current)] else sc.1
  }

  /** One more character of the run. */
  lemma PyScanRunStep(s: string, front: string, ch: char, mergeSymbols: bool)
    requires PyScan(s + front, mergeSymbols).0 == LexState(PyClassOf(ch), front)
    requires mergeSymbols || PyClassOf(ch) != Symbol
    ensures PyScan(s + front + [ch], mergeSymbols) == (LexState(PyClassOf(ch), front + [ch]), PyScan(s + front, mergeSymbols).1)
  {
    PyScanExtend(s + front, ch, mergeSymbols);
  }

  /** A character that extends the pending token. */
  lemma PyScanExtend(p: string, ch: char, mergeSymbols: bool)
    requires Extends(PyScan(p, mergeSymbols).0, PyClassOf(ch), mergeSymbols)
    ensures PyScan(p + [ch], mergeSymbols) == (LexState(PyClassOf(ch), PyScan(p, mergeSymbols).0.current + [ch]), PyScan(p, mergeSymbols).1)
  {
    PyScanSnoc(p, ch, mergeSymbols);
  }

  /** The first character of such a run. */
  lemma PyScanRunOne(s: string, ch: char, c: TokenClass, mergeSymbols: bool)
    requires PyClassOf(ch) == c
    requires PyScan(s, mergeSymbols).0.state == Start || !Extends(PyScan(s, mergeSymbols).0, c, mergeSymbols)
    ensures PyScan(s + [ch], mergeSymbols) == (LexState(c, [ch]), Flushed(PyScan(s, mergeSymbols)))
  {
    PyScanSnoc(s, ch, mergeSymbols);
  }

  /** Scanning the values of lexable tokens leaves the last token pending and emits the
      others. */
  lemma {:induction false} PyScanValues(ts: seq<Token>, mergeSymbols: bool)
    requires |ts| > 0 && PyLexable(ts, mergeSymbols)
    ensures PyScan(Values(ts), mergeSymbols) == (LexState(ts[|ts| - 1].kind, ts[|ts| - 1].value), ts[..|ts| - 1])
    decreases |ts|
  {
    var t := ts[|ts| - 1];
    var front := ts[..|ts| - 1];
    if |ts| == 1 {
      assert Values(ts) == Values([]) + t.value;
      assert "" + t.value == t.value;
      PyScanRun("", t.value, t.kind, mergeSymbols);
    } else {
      assert PyLexable(front, mergeSymbols) by {
        forall k | 0 <= k < |front| - 1
          ensures mergeSymbols ==> front[k].kind != front[k + 1].kind
          ensures !mergeSymbols ==> front[k].kind == Symbol || front[k].kind != front[k + 1].kind
        {
          assert front[k] == ts[k] && front[k + 1] == ts[k + 1];
        }
      }
      PyScanValues(front, mergeSymbols);
      var prev := front[|front| - 1];
      assert prev == ts[|ts| - 2];
      PyScanRun(Values(front), t.value, t.kind, mergeSymbols);
      assert front[..|front| - 1] + [prev] == front;
    }
  }

  /** Lexing the values of lexable tokens gives back those tokens. */
  lemma PyLexOfValues(ts: seq<Token>, mergeSymbols: bool)
    requires |ts| > 0 && PyLexable(ts, mergeSymbols)
    ensures PyLexSophemeSequence(Values(ts), mergeSymbols) == ts
  {
    PyScanValues(ts, mergeSymbols);
    PendingOfLast(ts, PyScan(Values(ts), mergeSymbols));
  }

  lemma PendingOfLast(ts: seq<Token>, sc: (LexState, seq<Token>))
    requires |ts| > 0 && sc == (LexState(ts[|ts| - 1].kind, ts[|ts| - 1].value), ts[..|ts| - 1])
    ensures Pending(sc) == ts
  {
    assert ts[..|ts| - 1] + [ts[|ts| - 1]] == ts;
  }

  /** The lexer object of lex_sopheme_sequence.py:15-31. */
  class PyLexer {
    var state: TokenClass
    var currentToken: string

    function State(): LexState
      reads this
    {
      LexState(state, currentToken)
    }

    /** lex_sopheme_sequence.py:16-18. */
    constructor ()
      ensures State() == INITIAL
    {
      state := Start;
      currentToken := "";
    }

    /** lex_sopheme_sequence.py:20-28: the generator yields at most one token. */
    method Step(ch: char, targetState: TokenClass, mergeSymbols: bool) returns (token: Option<Token>)
      modifies this
      ensures (State(), token) == PyStepState(old(State()), ch, targetState, mergeSymbols)
    {
      if state == targetState && (mergeSymbols || targetState != Symbol) {
        currentToken := currentToken + [ch];
        token := None;
      } else {
        token := if state != Start then Some(Token(state, currentToken)) else None;
        currentToken := [ch];
      }
      state := targetState;
    }

    /** lex_sopheme_sequence.py:30-31. */
    method StepEol() returns (token: Token)
      ensures token == Token(state, currentToken)
    {
      token := Token(state, currentToken);
    }
  }

  /** lex_sopheme_sequence.py:34-45: a fresh lexer fed every character, then its
      pending token. */
  method PyLex(s: string, mergeSymbols: bool) returns (tokens: seq<Token>)
    ensures tokens == PyLexSophemeSequence(s, mergeSymbols)
  {
    var lexer := new PyLexer();
    tokens := [];
    for i := 0 to |s|
      invariant (lexer.State(), tokens) == PyScan(s[..i], mergeSymbols)
    {
      var ch := s[i];
      var target := if ch == ' ' then Whitespace
        else if IsAlphanumeric(ch) || ch in "-/@" then Chars
        else Symbol;
      assert target == PyClassOf(ch);
      ghost var before := PyScan(s[..i], mergeSymbols);
      var token := lexer.Step(ch, target, mergeSymbols);
      ghost var st := PyStepState(before.0, ch, target, mergeSymbols);
      assert (lexer.State(), token) == st;
      if token.Some? {
        tokens := tokens + [token.value];
      }
      assert s[..i + 1] == s[..i] + [ch];
      PyScanSnoc(s[..i], ch, mergeSymbols);
    }
    assert s[..|s|] == s;
    var last := lexer.StepEol();
    tokens := tokens + [last];
  }
}
