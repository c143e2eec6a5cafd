/** The older sopheme-sequence parser (plover_hatchery/lib/sopheme/parse_orthokeysymbol.py):
    a state machine fed the merged-symbol tokens of the Python lexer, one token at a time,
    that yields an orthokeysymbol (chars and keysymbols) whenever a sopheme is complete.

    The flag `fixed` selects between the parser as written (`fixed == false`) and a
    corrected one: as written, the handler of DONE_PHONO is a generator that is called
    and never iterated, so it never runs, and the states DONE_KEYSYMBOL and
    DONE_KEYSYMBOL_OPTIONAL_MARKER have no case, so every later token is ignored. */
module OrthoParse {
  import opened Wrappers
  import opened Text
  import opened Lex
  import opened LexPy
  import opened KeysymbolPy

  /** _ParserState (parse_orthokeysymbol.py:52-62). */
  datatype ParserState =
    | DoneSopheme
    | DoneOrtho
    | DoneDot
    | DoneGroupStart
    | DoneKeysymbolChars
    | DoneStressMarker
    | DoneStressValue
    | DoneOptionalMarker
    | DoneKeysymbol
    | DonePhono

  /** The Python exceptions the parser raises. */
  datatype PyError = ValueError | TypeError | AssertionError

  /** A sopheme as this parser builds it: its keysymbols and its chars. */
  datatype Orthokeysymbol = Orthokeysymbol(keysymbols: seq<PyKeysymbol>, chars: string)

  /** The fields of _Parser (parse_orthokeysymbol.py:66-78). */
  datatype Machine = Machine(
    state: ParserState,
    parenthesesLevel: int,
    hasActiveSopheme: bool,
    sophemeChars: string,
    sophemeKeysymbols: seq<PyKeysymbol>,
    hasActiveKeysymbol: bool,
    keysymbolChars: string,
    keysymbolStress: int,
    keysymbolOptional: bool)

  /** The parser as constructed. */
  const START := Machine(DoneSopheme, 0, false, "", [], false, "", 0, false)

  /** What one step does: the new machine and what it yields, or an exception. */
  datatype Effect = Stepped(machine: Machine, yielded: seq<Orthokeysymbol>) | Raised(error: PyError)

  /** The tokens of `_lex_seq` (parse_orthokeysymbol.py:18-48): the same classes and the
      same merging of runs as lex_sopheme_sequence.py, symbol runs included. */
  function LexSeq(s: string): seq<Token> {
    PyLexSophemeSequence(s, true)
  }

  /** `_lex_seq` spells the line back; an empty line gives the one Start token, any other
      line lexable tokens whose neighbours differ in class (parse_orthokeysymbol.py:18-48). */
  lemma LexSeqShape(s: string)
    ensures Values(LexSeq(s)) == s
    ensures s == "" ==> LexSeq(s) == [Token(Start, "")]
    ensures s != "" ==> PyLexable(LexSeq(s), true)
  {
    PyLexConcatenates(s, true);
    PyLexShape(s, true);
  }

  /** Python's `int` on the text of a CHARS token: an optional sign and ASCII digits. */
  function PyInt(s: string): (r: Option<int>)
    ensures r.Some? ==> |s| > 0
    ensures (exists i :: 0 <= i < |s| && IsAsciiLetter(s[i])) ==> r.None?
  {
    if |s| > 0 && AllDigits(s) then Some(DigitsValue(s))
    else if |s| > 1 && s[0] in "+-" && AllDigits(s[1..]) then
      Some(if s[0] == '-' then -(DigitsValue(s[1..]) as int) else DigitsValue(s[1..]))
    else None
  }

  /** A decimal numeral reads back as its value, and with a minus sign as its negation. */
  lemma PyIntDecimal(n: nat)
    ensures PyInt(DecimalString(n)) == Some(n)
    ensures PyInt("-" + DecimalString(n)) == Some(-(n as int))
  {
    DecimalRoundTrip(n);
    var t := "-" + DecimalString(n);
    assert t[1..] == DecimalString(n);
    assert !AllDigits(t) by {
      assert t[0] == '-' && !IsAsciiDigit(t[0]);
    }
  }

  /** The keysymbol being read. */
  function CurrentKeysymbol(m: Machine): PyKeysymbol {
    PyKeysymbol(m.keysymbolChars, m.keysymbolStress, m.keysymbolOptional)
  }

  /** The sopheme being read. */
  function CurrentSopheme(m: Machine): Orthokeysymbol {
    Orthokeysymbol(m.sophemeKeysymbols, m.sophemeChars)
  }

  /** `__complete_sopheme` (parse_orthokeysymbol.py:81-90): asserts that a sopheme is
      active, yields it and clears the accumulated chars and keysymbols. Nothing else
      changes. */
  function CompleteSophemeOf(m: Machine): (r: Effect)
    ensures r.Raised? <==> !m.hasActiveSopheme
    ensures r.Raised? ==> r.error == AssertionError
    ensures r.Stepped? ==> r.yielded == [Orthokeysymbol(m.sophemeKeysymbols, m.sophemeChars)]
    ensures r.Stepped? ==> !r.machine.hasActiveSopheme && r.machine.sophemeChars == "" && r.machine.sophemeKeysymbols == []
    ensures r.Stepped? ==> r.machine.(hasActiveSopheme := true, sophemeChars := m.sophemeChars, sophemeKeysymbols := m.sophemeKeysymbols) == m
  {
    if !m.hasActiveSopheme then Raised(AssertionError)
    else Stepped(m.(hasActiveSopheme := false, sophemeChars := "", sophemeKeysymbols := []), [CurrentSopheme(m)])
  }

  /** `__complete_keysymbol` (parse_orthokeysymbol.py:93-99): asserts that a keysymbol is
      active and appends it to the sopheme's keysymbols. Its chars, stress and optional
      flag are kept for the next keysymbol. */
  function CompleteKeysymbolOf(m: Machine): (r: Effect)
    ensures r.Raised? <==> !m.hasActiveKeysymbol
    ensures r.Raised? ==> r.error == AssertionError
    ensures r.Stepped? ==> r.yielded == [] && !r.machine.hasActiveKeysymbol
    ensures r.Stepped? ==> r.machine.sophemeKeysymbols == m.sophemeKeysymbols + [PyKeysymbol(m.keysymbolChars, m.keysymbolStress, m.keysymbolOptional)]
    ensures r.Stepped? ==> r.machine.(hasActiveKeysymbol := true, sophemeKeysymbols := m.sophemeKeysymbols) == m
  {
    if !m.hasActiveKeysymbol then Raised(AssertionError)
    else Stepped(m.(sophemeKeysymbols := m.sophemeKeysymbols + [CurrentKeysymbol(m)], hasActiveKeysymbol := false), [])
  }

  /** Whitespace after an orthography, a dot or a phonology: the sopheme is completed
      and yielded, and the parser waits for the next sopheme. */
  function YieldSopheme(m: Machine): Effect {
    match CompleteSophemeOf(m)
    case Raised(e) => Raised(e)
    case Stepped(m1, y) => Stepped(m1.(state := DoneSopheme), y)
  }

  /** ")" after a keysymbol: it is completed and the parentheses level drops by one. */
  function CloseGroup(m: Machine): Effect {
    match CompleteKeysymbolOf(m)
    case Raised(e) => Raised(e)
    case Stepped(m1, _) => Stepped(m1.(state := DonePhono, parenthesesLevel := m1.parenthesesLevel - 1), [])
  }

  /** Whitespace after a keysymbol: it is completed. As written the parser then sits in
      DONE_KEYSYMBOL; corrected, outside parentheses the sopheme ends there too. */
  function EndKeysymbol(m: Machine, fixed: bool): Effect {
    match CompleteKeysymbolOf(m)
    case Raised(e) => Raised(e)
    case Stepped(m1, _) =>
      if fixed && m1.parenthesesLevel <= 0 then YieldSopheme(m1)
      else Stepped(m1.(state := DoneKeysymbol), [])
  }

  /** `__consume_start_sopheme` (parse_orthokeysymbol.py:124-144). */
  function StepStartSopheme(m: Machine, t: Token): Effect {
    match t.kind
    case Chars => Stepped(m.(state := DoneOrtho, sophemeChars := t.value, hasActiveSopheme := true), [])
    case Symbol =>
      if t.value == "." then Stepped(m.(state := DoneDot, hasActiveSopheme := true), [])
      else Raised(ValueError)
    case Whitespace => Stepped(m, [])
    case Start => Raised(TypeError)
  }

  /** `__consume_done_ortho` (parse_orthokeysymbol.py:147-167): chars right after the
      orthography start keysymbol chars without marking a keysymbol active. */
  function StepDoneOrtho(m: Machine, t: Token): Effect {
    match t.kind
    case Chars => Stepped(m.(state := DoneKeysymbolChars, keysymbolChars := t.value), [])
    case Symbol =>
      if t.value == "." then Stepped(m.(state := DoneDot), [])
      else Raised(ValueError)
    case Whitespace => YieldSopheme(m)
    case Start => Raised(TypeError)
  }

  /** `__consume_done_dot` (parse_orthokeysymbol.py:170-192). */
  function StepDoneDot(m: Machine, t: Token): Effect {
    match t.kind
    case Chars => Stepped(m.(state := DoneKeysymbolChars, keysymbolChars := t.value, hasActiveKeysymbol := true), [])
    case Symbol =>
      if t.value == "(" then Stepped(m.(state := DoneGroupStart, parenthesesLevel := m.parenthesesLevel + 1), [])
      else Raised(ValueError)
    case Whitespace => YieldSopheme(m)
    case Start => Raised(TypeError)
  }

  /** `__consume_done_keysymbol_group_start_marker` (parse_orthokeysymbol.py:195-217). */
  function StepGroupStart(m: Machine, t: Token): Effect {
    match t.kind
    case Chars => Stepped(m.(state := DoneKeysymbolChars, keysymbolChars := t.value, hasActiveKeysymbol := true), [])
    case Symbol =>
      if t.value == ")" then CloseGroup(m)
      else Raised(ValueError)
    case Whitespace => Stepped(m, [])
    case Start => Raised(TypeError)
  }

  /** `__consume_done_keysymbol_chars` (parse_orthokeysymbol.py:220-242). */
  function StepKeysymbolChars(m: Machine, t: Token, fixed: bool): Effect {
    match t.kind
    case Symbol =>
      if t.value == "!" then Stepped(m.(state := DoneStressMarker), [])
      else if t.value == ")" then CloseGroup(m)
      else Raised(ValueError)
    case Whitespace => EndKeysymbol(m, fixed)
    case _ => Raised(TypeError)
  }

  /** `__consume_done_keysymbol_stress_marker` (parse_orthokeysymbol.py:245-253): the
      stress is `int` of the chars, asserted to lie in 1..3. */
  function StepStressMarker(m: Machine, t: Token): Effect {
    match t.kind
    case Chars =>
      (match PyInt(t.value)
       case None => Raised(ValueError)
       case Some(n) =>
         if 1 <= n <= 3 then Stepped(m.(state := DoneStressValue, keysymbolStress := n), [])
         else Raised(AssertionError))
    case _ => Raised(TypeError)
  }

  /** `__consume_done_keysymbol_stress_value` (parse_orthokeysymbol.py:255-275): a symbol
      other than "?" and ")" matches no case and is ignored. */
  function StepStressValue(m: Machine, t: Token, fixed: bool): Effect {
    match t.kind
    case Symbol =>
      if t.value == "?" then Stepped(m.(state := DoneOptionalMarker, keysymbolOptional := true), [])
      else if t.value == ")" then CloseGroup(m)
      else Stepped(m, [])
    case Whitespace => EndKeysymbol(m, fixed)
    case _ => Raised(TypeError)
  }

  /** `__consume_done_phono` (parse_orthokeysymbol.py:277-285). */
  function StepDonePhono(m: Machine, t: Token): Effect {
    match t.kind
    case Whitespace => YieldSopheme(m)
    case _ => Raised(TypeError)
  }

  /** `consume` (parse_orthokeysymbol.py:102-121). As written, DONE_KEYSYMBOL,
      DONE_KEYSYMBOL_OPTIONAL_MARKER and DONE_PHONO leave everything unchanged. Corrected,
      DONE_PHONO runs its handler and an optional marker is followed like a stress. */
  function Next(m: Machine, t: Token, fixed: bool): (r: Effect)
    ensures m.state == DoneSopheme && t.kind == Whitespace ==> r == Stepped(m, [])
    ensures m.state == DoneSopheme && t.kind == Symbol && t.value != "." ==> r == Raised(ValueError)
    ensures r.Stepped? ==>
      || r.machine.parenthesesLevel == m.parenthesesLevel
      || (r.machine.parenthesesLevel == m.parenthesesLevel + 1 && t == Token(Symbol, "(") && m.state == DoneDot)
      || (r.machine.parenthesesLevel == m.parenthesesLevel - 1 && t == Token(Symbol, ")"))
    ensures m.state == DoneStressMarker && t.kind == Chars ==>
      (r.Stepped? <==> PyInt(t.value).Some? && 1 <= PyInt(t.value).value <= 3)
    ensures r.Stepped? && r.machine.keysymbolStress != m.keysymbolStress ==> 1 <= r.machine.keysymbolStress <= 3
    ensures (m.state in {DoneOrtho, DoneDot} || (fixed && m.state == DonePhono)) && t.kind == Whitespace && m.hasActiveSopheme ==>
      r.Stepped? && r.yielded == [CurrentSopheme(m)] && r.machine.state == DoneSopheme
      && !r.machine.hasActiveSopheme && r.machine.sophemeChars == "" && r.machine.sophemeKeysymbols == []
    ensures r.Stepped? && |r.yielded| > 0 ==> t.kind == Whitespace && |r.yielded| == 1 && r.machine.state == DoneSopheme
    ensures !fixed && m.state in {DoneKeysymbol, DoneOptionalMarker, DonePhono} ==> r == Stepped(m, [])
  {
    match m.state
    case DoneSopheme => StepStartSopheme(m, t)
    case DoneOrtho => StepDoneOrtho(m, t)
    case DoneDot => StepDoneDot(m, t)
    case DoneGroupStart => StepGroupStart(m, t)
    case DoneKeysymbolChars => StepKeysymbolChars(m, t, fixed)
    case DoneStressMarker => StepStressMarker(m, t)
    case DoneStressValue => StepStressValue(m, t, fixed)
    case DoneOptionalMarker => if fixed then StepStressValue(m, t, fixed) else Stepped(m, [])
    case DoneKeysymbol => Stepped(m, [])
    case DonePhono => if fixed then StepDonePhono(m, t) else Stepped(m, [])
  }

  /** `consume_eol` (parse_orthokeysymbol.py:287-295): an open parenthesis raises
      ValueError; otherwise the active keysymbol, then the active sopheme, are completed,
      and the sopheme is yielded. */
  function AtEol(m: Machine): (r: Effect)
    ensures m.parenthesesLevel > 0 <==> r.Raised?
    ensures r.Raised? ==> r.error == ValueError
    ensures r.Stepped? ==> !r.machine.hasActiveKeysymbol && !r.machine.hasActiveSopheme
    ensures r.Stepped? && m.hasActiveSopheme ==>
      r.yielded == [Orthokeysymbol(m.sophemeKeysymbols + (if m.hasActiveKeysymbol then [CurrentKeysymbol(m)] else []), m.sophemeChars)]
    ensures r.Stepped? && !m.hasActiveSopheme ==> r.yielded == []
  {
    if m.parenthesesLevel > 0 then Raised(ValueError)
    else
      var m1 := if m.hasActiveKeysymbol then CompleteKeysymbolOf(m).machine else m;
      assert !m.hasActiveKeysymbol ==> m1.sophemeKeysymbols == m.sophemeKeysymbols + [];
      if m1.hasActiveSopheme then CompleteSophemeOf(m1) else Stepped(m1, [])
  }

  /** The state of a run over some tokens: the machine, what was yielded, and the
      exception that stopped it, if any. */
  datatype Run = Run(machine: Machine, items: seq<Orthokeysymbol>, error: Option<PyError>)

  /** What was yielded before a run, followed by the run. */
  function Prepend(items: seq<Orthokeysymbol>, r: Run): Run {
    Run(r.machine, items + r.items, r.error)
  }

  /** The machine fed tokens in order, stopping at the first exception. */
  function Feed(m: Machine, ts: seq<Token>, fixed: bool): Run
    decreases |ts|
  {
    if |ts| == 0 then Run(m, [], None)
    else
      match Next(m, ts[0], fixed)
      case Raised(e) => Run(m, [], Some(e))
      case Stepped(m1, y) => Prepend(y, Feed(m1, ts[1..], fixed))
  }

  /** What `parse_seq` yields before it stops, and the exception it stops with. */
  datatype Outcome = Outcome(items: seq<Orthokeysymbol>, error: Option<PyError>)

  /** `parse_seq` (parse_orthokeysymbol.py:299-305): a fresh parser fed the tokens of
      the line, then the end of the line. */
  function ParseSeq(s: string, fixed: bool): Outcome {
    var r := Feed(START, LexSeq(s), fixed);
    if r.error.Some? then Outcome(r.items, r.error)
    else
      match AtEol(r.machine)
      case Raised(e) => Outcome(r.items, Some(e))
      case Stepped(_, y) => Outcome(r.items + y, None)
  }

  /** As written, DONE_KEYSYMBOL, DONE_KEYSYMBOL_OPTIONAL_MARKER and DONE_PHONO absorb
      every later token: nothing changes, nothing is yielded, nothing is raised. */
  lemma {:induction false} AbsorbingAsWritten(m: Machine, ts: seq<Token>)
    requires m.state in {DoneKeysymbol, DoneOptionalMarker, DonePhono}
    ensures Feed(m, ts, false) == Run(m, [], None)
    decreases |ts|
  {
    if |ts| > 0 {
      AbsorbingAsWritten(m, ts[1..]);
    }
  }

  /** Every keysymbol stress the machine holds is 0 or an asserted value in 1..3. */
  predicate StressInRange(m: Machine) {
    && 0 <= m.keysymbolStress <= 3
    && forall k | k in m.sophemeKeysymbols :: 0 <= k.stress <= 3
  }

  /** Every yielded keysymbol has a stress in 0..3. */
  predicate ItemsInRange(items: seq<Orthokeysymbol>) {
    forall o, k | o in items && k in o.keysymbols :: 0 <= k.stress <= 3
  }

  lemma NextStressInRange(m: Machine, t: Token, fixed: bool)
    requires StressInRange(m)
    ensures Next(m, t, fixed).Stepped? ==>
      StressInRange(Next(m, t, fixed).machine) && ItemsInRange(Next(m, t, fixed).yielded)
  {
  }

  /** Feeding tokens keeps every stress in range, held or yielded. */
  lemma {:induction false} FeedStressInRange(m: Machine, ts: seq<Token>, fixed: bool)
    requires StressInRange(m)
    ensures StressInRange(Feed(m, ts, fixed).machine) && ItemsInRange(Feed(m, ts, fixed).items)
    decreases |ts|
  {
    if |ts| > 0 {
      NextStressInRange(m, ts[0], fixed);
      match Next(m, ts[0], fixed)
      case Raised(e) =>
      case Stepped(m1, y) =>
        FeedStressInRange(m1, ts[1..], fixed);
        var r := Feed(m1, ts[1..], fixed);
        assert forall o | o in y + r.items :: o in y || o in r.items;
    }
  }

  /** Every keysymbol `parse_seq` yields has stress 0 or 1..3: a stress outside 1..3
      raises AssertionError (parse_orthokeysymbol.py:245-250). */
  lemma ParseSeqStressInRange(s: string, fixed: bool)
    ensures ItemsInRange(ParseSeq(s, fixed).items)
  {
    var r := Feed(START, LexSeq(s), fixed);
    FeedStressInRange(START, LexSeq(s), fixed);
    if r.error.None? && AtEol(r.machine).Stepped? {
      var y := AtEol(r.machine).yielded;
      assert forall o | o in r.items + y :: o in r.items || o in y;
    }
  }

  /** An empty line lexes to the Start token, which the parser refuses with TypeError. */
  lemma EmptyLineRaises(s: string, fixed: bool)
    requires s == ""
    ensures ParseSeq(s, fixed) == Outcome([], Some(TypeError))
  {
    LexSeqShape(s);
  }

  /** `_Parser` (parse_orthokeysymbol.py:65-295). */
  class OrthoParser {
    var state: ParserState
    var parenthesesLevel: int
    var hasActiveSopheme: bool
    var sophemeChars: string
    var sophemeKeysymbols: seq<PyKeysymbol>
    var hasActiveKeysymbol: bool
    var keysymbolChars: string
    var keysymbolStress: int
    var keysymbolOptional: bool

    function Fields(): Machine
      reads this
    {
      Machine(state, parenthesesLevel, hasActiveSopheme, sophemeChars, sophemeKeysymbols,
              hasActiveKeysymbol, keysymbolChars, keysymbolStress, keysymbolOptional)
    }

    /** parse_orthokeysymbol.py:66-78: waiting for a sopheme, parentheses level 0, no
        active sopheme or keysymbol. */
    constructor ()
      ensures Fields() == START
    {
      state := DoneSopheme;
      parenthesesLevel := 0;
      hasActiveSopheme := false;
      sophemeChars := "";
      sophemeKeysymbols := [];
      hasActiveKeysymbol := false;
      keysymbolChars := "";
      keysymbolStress := 0;
      keysymbolOptional := false;
    }

    /** Whether a step left the machine `m` with `yielded`, or raised `error`. */
    static predicate Reports(r: Effect, m: Machine, yielded: seq<Orthokeysymbol>, error: Option<PyError>) {
      && (error.None? ==> r == Stepped(m, yielded))
      && (error.Some? ==> r == Raised(error.value))
    }

    /** parse_orthokeysymbol.py:81-90. */
    method CompleteSopheme() returns (sopheme: Orthokeysymbol, error: Option<PyError>)
      modifies this
      ensures Reports(CompleteSophemeOf(old(Fields())), Fields(), [sopheme], error)
    {
      if !hasActiveSopheme {
        return Orthokeysymbol([], ""), Some(AssertionError);
      }
      sopheme := Orthokeysymbol(sophemeKeysymbols, sophemeChars);
      sophemeChars := "";
      sophemeKeysymbols := [];
      hasActiveSopheme := false;
      error := None;
    }

    /** parse_orthokeysymbol.py:93-99. */
    method CompleteKeysymbol() returns (error: Option<PyError>)
      modifies this
      ensures Reports(CompleteKeysymbolOf(old(Fields())), Fields(), [], error)
    {
      if !hasActiveKeysymbol {
        return Some(AssertionError);
      }
      sophemeKeysymbols := sophemeKeysymbols + [PyKeysymbol(keysymbolChars, keysymbolStress, keysymbolOptional)];
      hasActiveKeysymbol := false;
      error := None;
    }

    /** Completing and yielding the sopheme on whitespace. */
    method FinishSopheme() returns (yielded: seq<Orthokeysymbol>, error: Option<PyError>)
      modifies this
      ensures Reports(YieldSopheme(old(Fields())), Fields(), yielded, error)
    {
      var sopheme;
      sopheme, error := CompleteSopheme();
      yielded := [];
      if error.None? {
        yielded := [sopheme];
        state := DoneSopheme;
      }
    }

    /** Closing a parenthesis after a keysymbol. */
    method FinishGroup() returns (error: Option<PyError>)
      modifies this
      ensures Reports(CloseGroup(old(Fields())), Fields(), [], error)
    {
      error := CompleteKeysymbol();
      if error.None? {
        state := DonePhono;
        parenthesesLevel := parenthesesLevel - 1;
      }
    }

    /** Ending a keysymbol on whitespace. */
    method FinishKeysymbol(fixed: bool) returns (yielded: seq<Orthokeysymbol>, error: Option<PyError>)
      modifies this
      ensures Reports(EndKeysymbol(old(Fields()), fixed), Fields(), yielded, error)
    {
      yielded := [];
      error := CompleteKeysymbol();
      if error.None? {
        if fixed && parenthesesLevel <= 0 {
          yielded, error := FinishSopheme();
        } else {
          state := DoneKeysymbol;
        }
      }
    }

    /** parse_orthokeysymbol.py:124-144. */
    method ConsumeStartSopheme(token: Token) returns (error: Option<PyError>)
      modifies this
      ensures Reports(StepStartSopheme(old(Fields()), token), Fields(), [], error)
    {
      error := None;
      match token.kind {
        case Chars =>
          state := DoneOrtho;
          sophemeChars := token.value;
          hasActiveSopheme := true;
        case Symbol =>
          if token.value == "." {
            state := DoneDot;
            hasActiveSopheme := true;
          } else {
            error := Some(ValueError);
          }
        case Whitespace =>
        case Start =>
          error := Some(TypeError);
      }
    }

    /** parse_orthokeysymbol.py:147-167. */
    method ConsumeDoneOrtho(token: Token) returns (yielded: seq<Orthokeysymbol>, error: Option<PyError>)
      modifies this
      ensures Reports(StepDoneOrtho(old(Fields()), token), Fields(), yielded, error)
    {
      yielded, error := [], None;
      match token.kind {
        case Chars =>
          state := DoneKeysymbolChars;
          keysymbolChars := token.value;
        case Symbol =>
          if token.value == "." {
            state := DoneDot;
          } else {
            error := Some(ValueError);
          }
        case Whitespace =>
          yielded, error := FinishSopheme();
        case Start =>
          error := Some(TypeError);
      }
    }

    /** parse_orthokeysymbol.py:170-192. */
    method ConsumeDoneDot(token: Token) returns (yielded: seq<Orthokeysymbol>, error: Option<PyError>)
      modifies this
      ensures Reports(StepDoneDot(old(Fields()), token), Fields(), yielded, error)
    {
      yielded, error := [], None;
      match token.kind {
        case Chars =>
          state := DoneKeysymbolChars;
          keysymbolChars := token.value;
          hasActiveKeysymbol := true;
        case Symbol =>
          if token.value == "(" {
            state := DoneGroupStart;
            parenthesesLevel := parenthesesLevel + 1;
          } else {
            error := Some(ValueError);
          }
        case Whitespace =>
          yielded, error := FinishSopheme();
        case Start =>
          error := Some(TypeError);
      }
    }

    /** parse_orthokeysymbol.py:195-217. */
    method ConsumeGroupStart(token: Token) returns (error: Option<PyError>)
      modifies this
      ensures Reports(StepGroupStart(old(Fields()), token), Fields(), [], error)
    {
      error := None;
      match token.kind {
        case Chars =>
          state := DoneKeysymbolChars;
          keysymbolChars := token.value;
          hasActiveKeysymbol := true;
        case Symbol =>
          if token.value == ")" {
            error := FinishGroup();
          } else {
            error := Some(ValueError);
          }
        case Whitespace =>
        case Start =>
          error := Some(TypeError);
      }
    }

    /** parse_orthokeysymbol.py:220-242. */
    method ConsumeKeysymbolChars(token: Token, fixed: bool) returns (yielded: seq<Orthokeysymbol>, error: Option<PyError>)
      modifies this
      ensures Reports(StepKeysymbolChars(old(Fields()), token, fixed), Fields(), yielded, error)
    {
      yielded, error := [], None;
      match token.kind {
        case Symbol =>
          if token.value == "!" {
            state := DoneStressMarker;
          } else if token.value == ")" {
            error := FinishGroup();
          } else {
            error := Some(ValueError);
          }
        case Whitespace =>
          yielded, error := FinishKeysymbol(fixed);
        case _ =>
          error := Some(TypeError);
      }
    }

    /** parse_orthokeysymbol.py:245-253. */
    method ConsumeStressMarker(token: Token) returns (error: Option<PyError>)
      modifies this
      ensures Reports(StepStressMarker(old(Fields()), token), Fields(), [], error)
    {
      error := None;
      if token.kind == Chars {
        state := DoneStressValue;
        var n := PyInt(token.value);
        if n.None? {
          error := Some(ValueError);
        } else {
          keysymbolStress := n.value;
          if !(1 <= keysymbolStress <= 3) {
            error := Some(AssertionError);
          }
        }
      } else {
        error := Some(TypeError);
      }
    }

    /** parse_orthokeysymbol.py:255-275. */
    method ConsumeStressValue(token: Token, fixed: bool) returns (yielded: seq<Orthokeysymbol>, error: Option<PyError>)
      modifies this
      ensures Reports(StepStressValue(old(Fields()), token, fixed), Fields(), yielded, error)
    {
      yielded, error := [], None;
      match token.kind {
        case Symbol =>
          if token.value == "?" {
            state := DoneOptionalMarker;
            keysymbolOptional := true;
          } else if token.value == ")" {
            error := FinishGroup();
          }
        case Whitespace =>
          yielded, error := FinishKeysymbol(fixed);
        case _ =>
          error := Some(TypeError);
      }
    }

    /** parse_orthokeysymbol.py:277-285. */
    method ConsumeDonePhono(token: Token) returns (yielded: seq<Orthokeysymbol>, error: Option<PyError>)
      modifies this
      ensures Reports(StepDonePhono(old(Fields()), token), Fields(), yielded, error)
    {
      if token.kind == Whitespace {
        yielded, error := FinishSopheme();
      } else {
        yielded, error := [], Some(TypeError);
      }
    }

    /** parse_orthokeysymbol.py:102-121; printing the token is left out. */
    method Consume(token: Token, fixed: bool) returns (yielded: seq<Orthokeysymbol>, error: Option<PyError>)
      modifies this
      ensures Reports(Next(old(Fields()), token, fixed), Fields(), yielded, error)
    {
      yielded, error := [], None;
      match state {
        case DoneSopheme =>
          error := ConsumeStartSopheme(token);
        case DoneOrtho =>
          yielded, error := ConsumeDoneOrtho(token);
        case DoneDot =>
          yielded, error := ConsumeDoneDot(token);
        case DoneGroupStart =>
          error := ConsumeGroupStart(token);
        case DoneKeysymbolChars =>
          yielded, error := ConsumeKeysymbolChars(token, fixed);
        case DoneStressMarker =>
          error := ConsumeStressMarker(token);
        case DoneStressValue =>
          yielded, error := ConsumeStressValue(token, fixed);
        case DoneOptionalMarker =>
          if fixed {
            yielded, error := ConsumeStressValue(token, fixed);
          }
        case DoneKeysymbol =>
        case DonePhono =>
          if fixed {
            yielded, error := ConsumeDonePhono(token);
          }
      }
    }

    /** parse_orthokeysymbol.py:287-295. */
    method ConsumeEol() returns (yielded: seq<Orthokeysymbol>, error: Option<PyError>)
      modifies this
      ensures Reports(AtEol(old(Fields())), Fields(), yielded, error)
    {
      yielded := [];
      if parenthesesLevel > 0 {
        return [], Some(ValueError);
      }
      error := None;
      if hasActiveKeysymbol {
        error := CompleteKeysymbol();
      }
      if hasActiveSopheme {
        var sopheme;
        sopheme, error := CompleteSopheme();
        yielded := [sopheme];
      }
    }
  }

  /** `parse_seq` (parse_orthokeysymbol.py:299-305): what the generator yields before it
      stops, and the exception it stops with. */
  method ParseSeqLoop(s: string, fixed: bool) returns (o: Outcome)
    ensures o == ParseSeq(s, fixed)
  {
    var tokens := PyLex(s, true);
    var parser := new OrthoParser();
    var items: seq<Orthokeysymbol> := [];
    var i := 0;
    while i < |tokens|
      invariant 0 <= i <= |tokens|
      invariant Feed(START, tokens, fixed) == Prepend(items, Feed(parser.Fields(), tokens[i..], fixed))
      decreases |tokens| - i
    {
      ghost var before := parser.Fields();
      var y, e := parser.Consume(tokens[i], fixed);
      assert tokens[i..][0] == tokens[i] && tokens[i..][1..] == tokens[i + 1..];
      if e.Some? {
        assert Feed(before, tokens[i..], fixed) == Run(before, [], e);
        assert items + [] == items;
        return Outcome(items, e);
      }
      AppendAssoc(items, y, Feed(parser.Fields(), tokens[i + 1..], fixed).items);
      items := items + y;
      i := i + 1;
    }
    assert tokens[i..] == [];
    assert items + [] == items;
    var y, e := parser.ConsumeEol();
    o := Outcome(items + (if e.None? then y else []), e);
    if e.Some? {
      assert items + [] == items;
    }
  }
}
