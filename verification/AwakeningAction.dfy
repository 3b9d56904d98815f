/**
 The action vocabulary of the awakening ritual and its text form in the signed log.
 The log stores text, so an action is loggable exactly when its text parses back to it.
 */
module AwakeningAction {
  import opened Wrappers
  import opened Text
  import opened Nature

  const MAX_AWAKENING_RESPONSE_BYTES: nat := 256
  const MAX_DELTA: int := 100

  datatype Action =
    | Yes
    | Adjust(natureTrait: NatureTrait, delta: I16)
    | Reroll
    | Kill

  datatype RecordedAction =
    | Operator(action: Action)
    | SkipForTesting
    | AcceptDefault
    | PostConfirmationAdjust(natureTrait: NatureTrait, value: U8)
    | ForcedRerollEpoch

  const SKIP_TEXT := "SKIP --skip-awakening"
  const ACCEPT_TEXT := "ACCEPT DEFAULT NATURE"
  const FORCED_REROLL_TEXT := "BEGIN --reroll-nature --force"
  const POST_ADJUST := "POST_ADJUST"

  // ---------------------------------------------------------------- operator responses

  predicate WellFormedResponse(input: string) {
    && 0 < |input| <= MAX_AWAKENING_RESPONSE_BYTES
    && (forall i :: 0 <= i < |input| ==> IsAscii(input[i]))
    && (forall i :: 0 <= i < |input| ==> IsControl(input[i]) ==> IsAsciiWhitespace(input[i]))
  }

  function ParseDelta(word: string): Option<I16> {
    match ParseSigned(word, 0x7FFF)
    case None => None
    case Some(d) => if d == 0 || d < -MAX_DELTA || d > MAX_DELTA then None else Some(d)
  }

  /** `AwakeningAction::parse`: the four forms an operator may send. */
  function ParseAction(input: string): Option<Action> {
    if !WellFormedResponse(input) then None
    else
      var parts := SplitWords(input);
      if |parts| == 1 then
        var command := Lower(parts[0]);
        if command == "yes" then Some(Yes)
        else if command == "reroll" then Some(Reroll)
        else if command == "kill" then Some(Kill)
        else None
      else if |parts| == 3 && Lower(parts[0]) == "adjust" then
        match (ParseTrait(parts[1]), ParseDelta(parts[2]))
        case (Some(t), Some(d)) => Some(Adjust(t, d))
        case _ => None
      else None
  }

  function NormalizeAction(a: Action): string {
    match a
    case Yes => "YES"
    case Adjust(t, d) => "ADJUST" + " " + (t.Name() + " " + SignedDecimal(d))
    case Reroll => "REROLL"
    case Kill => "KILL"
  }

  // ---------------------------------------------------------------- recorded actions

  function ParsePostAdjust(text: string): Option<RecordedAction> {
    var parts := SplitWords(text);
    if |parts| != 3 || parts[0] != POST_ADJUST then None
    else
      match (ParseTrait(parts[1]), ParseUnsigned(parts[2], 0xFF))
      case (Some(t), Some(v)) => if v <= MAX_SLIDER then Some(PostConfirmationAdjust(t, v)) else None
      case _ => None
  }

  /** `RecordedAwakeningAction::parse`. */
  function Parse(text: string): Option<RecordedAction> {
    if text == SKIP_TEXT then Some(SkipForTesting)
    else if text == ACCEPT_TEXT then Some(AcceptDefault)
    else if text == FORCED_REROLL_TEXT then Some(ForcedRerollEpoch)
    else if POST_ADJUST <= text then ParsePostAdjust(text)
    else
      match ParseAction(text)
      case Some(a) => Some(Operator(a))
      case None => None
  }

  /** `RecordedAwakeningAction::normalized`. */
  function Normalize(a: RecordedAction): string {
    match a
    case Operator(action) => NormalizeAction(action)
    case SkipForTesting => SKIP_TEXT
    case AcceptDefault => ACCEPT_TEXT
    case PostConfirmationAdjust(t, v) => POST_ADJUST + " " + (t.Name() + " " + Decimal(v))
    case ForcedRerollEpoch => FORCED_REROLL_TEXT
  }

  /** The actions whose parameters the text form admits. */
  predicate Loggable(a: RecordedAction) {
    match a
    case Operator(Adjust(_, d)) => d != 0 && -MAX_DELTA <= d <= MAX_DELTA
    case PostConfirmationAdjust(_, v) => v <= MAX_SLIDER
    case _ => true
  }

  // ---------------------------------------------------------------- what the parsers accept

  /** A word names a trait in any case. */
  lemma TraitsAreNamed(word: string, t: NatureTrait)
    ensures ParseTrait(word) == Some(t) <==> Lower(word) == t.Name()
  {
    var w := Lower(word);
    hide Lower;
    assert w == "growth" ==> w[0] == 'g';
    assert w == "wealth" ==> w[0] == 'w';
    assert w == "influence" ==> w[0] == 'i';
    assert w == "stability" ==> w[0] == 's';
  }

  predicate IsPrintable(c: char) { ' ' <= c <= '~' || c in {'\t', '\n', '\U{0C}', '\r'} }

  /** Exactly which responses mean an action: short printable text of one or three words, in any case and spacing. */
  lemma ResponsesExactly(input: string, a: Action)
    ensures ParseAction(input) == Some(a) <==>
            && 0 < |input| <= MAX_AWAKENING_RESPONSE_BYTES && All(input, IsPrintable)
            && var words := SplitWords(input);
               match a
               case Yes => |words| == 1 && Lower(words[0]) == "yes"
               case Reroll => |words| == 1 && Lower(words[0]) == "reroll"
               case Kill => |words| == 1 && Lower(words[0]) == "kill"
               case Adjust(t, d) =>
                 && |words| == 3 && Lower(words[0]) == "adjust" && Lower(words[1]) == t.Name()
                 && ParseSigned(words[2], 0x7FFF) == Some(d) && d != 0 && -100 <= d <= 100
  {
    WellFormedIsPrintable(input);
    var words := SplitWords(input);
    hide SplitWords, WellFormedResponse, ParseTrait, ParseSigned, All;
    if |words| == 1 {
      OneCommand(Lower(words[0]));
    } else if |words| == 3 && a.Adjust? {
      TraitsAreNamed(words[1], a.natureTrait);
    }
    hide Lower;
  }

  lemma WellFormedIsPrintable(input: string)
    ensures WellFormedResponse(input) <==> 0 < |input| <= MAX_AWAKENING_RESPONSE_BYTES && All(input, IsPrintable)
  {
  }

  lemma OneCommand(w: string)
    ensures !(w == "yes" && w == "reroll") && !(w == "yes" && w == "kill") && !(w == "reroll" && w == "kill")
  {
  }

  /** Exactly which logged texts mean a later adjustment. */
  lemma PostAdjustmentsExactly(text: string, t: NatureTrait, v: U8)
    ensures ParsePostAdjust(text) == Some(PostConfirmationAdjust(t, v)) <==>
            var words := SplitWords(text);
            && |words| == 3 && words[0] == "POST_ADJUST" && Lower(words[1]) == t.Name()
            && ParseUnsigned(words[2], 255) == Some(v) && v <= 100
  {
    var words := SplitWords(text);
    hide SplitWords, ParseTrait, ParseUnsigned, Lower;
    if |words| == 3 {
      TraitsAreNamed(words[1], t);
    }
  }

  // ---------------------------------------------------------------- round trip

  lemma TraitRoundTrip(t: NatureTrait)
    ensures ParseTrait(t.Name()) == Some(t)
  {
    assert Lower(t.Name()) == t.Name();
  }

  predicate Plain(s: string) { forall i :: 0 <= i < |s| ==> IsAscii(s[i]) && !IsControl(s[i]) }

  lemma SplitThree(a: string, b: string, c: string)
    requires IsWord(a) && IsWord(b) && IsWord(c)
    ensures SplitWords(a + " " + (b + " " + c)) == [a, b, c]
  {
    SplitFirstWord(a, b + " " + c);
    SplitFirstWord(b, c);
    SplitOneWord(c);
  }

  lemma {:induction false} DecimalLength(n: nat)
    ensures |Decimal(n)| <= if n < 10 then 1 else if n < 100 then 2 else if n < 1000 then 3 else n
  {
    if n >= 10 {
      DecimalLength(n / 10);
    }
  }

  lemma PlainConcat(a: string, b: string)
    requires Plain(a) && Plain(b)
    ensures Plain(a + b)
  {
  }

  lemma SignedDecimalIsPlain(d: int)
    requires -1000 < d < 1000
    ensures Plain(SignedDecimal(d)) && |SignedDecimal(d)| <= 4
  {
    DecimalLength(if d < 0 then -d else d);
  }

  lemma TraitNameIsPlain(t: NatureTrait)
    ensures Plain(t.Name())
  {
  }

  lemma AdjustTextIsWellFormed(t: NatureTrait, d: I16)
    requires -1000 < d < 1000
    ensures WellFormedResponse(NormalizeAction(Adjust(t, d)))
  {
    SignedDecimalIsPlain(d);
    TraitNameIsPlain(t);
    var num := SignedDecimal(d);
    PlainConcat(t.Name(), " ");
    PlainConcat(t.Name() + " ", num);
    PlainConcat("ADJUST", " ");
    PlainConcat("ADJUST" + " ", t.Name() + " " + num);
  }

  lemma CommandRoundTrip(a: Action)
    requires !a.Adjust?
    ensures Parse(NormalizeAction(a)) == Some(Operator(a))
  {
    hide Parse, ParseAction;
    match a
    case Yes => OneWordCommand("YES", Yes);
    case Reroll => OneWordCommand("REROLL", Reroll);
    case Kill => OneWordCommand("KILL", Kill);
  }

  lemma OneWordCommand(s: string, a: Action)
    requires IsWord(s) && Plain(s) && |s| <= 6 && s[0] in "YRK"
    requires Lower(s) == match a case Yes => "yes" case Reroll => "reroll" case Kill => "kill" case _ => ""
    ensures Parse(s) == Some(Operator(a))
  {
    SplitOneWord(s);
    CommandIsNotReserved(s);
    hide Parse, SplitWords, Lower;
  }

  lemma CommandIsNotReserved(s: string)
    requires s != "" && s[0] != 'P' && s[0] != 'S' && s[0] != 'A' && s[0] != 'B'
    ensures Parse(s) == match ParseAction(s) case Some(a) => Some(Operator(a)) case None => None
  {
    assert ACCEPT_TEXT[0] == 'A' && SKIP_TEXT[0] == 'S' && FORCED_REROLL_TEXT[0] == 'B' && POST_ADJUST[0] == 'P';
  }

  /** A zero adjustment has a text, but no parser accepts it. */
  lemma ZeroAdjustDoesNotParse(t: NatureTrait)
    ensures Parse(Normalize(Operator(Adjust(t, 0)))) == None
  {
    AdjustParts(t, 0);
    ZeroIsNoDelta();
    AdjustIsNotReserved(NormalizeAction(Adjust(t, 0)));
    hide Parse, SplitWords, ParseDelta, SignedDecimal, WellFormedResponse, Lower, ParseTrait;
  }

  lemma ZeroIsNoDelta()
    ensures ParseDelta(SignedDecimal(0)) == None
  {
    SignedDecimalParses(0, 0x7FFF);
  }

  /** No reserved text starts with "AD", so such a text goes to the operator parser. */
  lemma AdjustIsNotReserved(s: string)
    requires |s| >= 2 && s[0] == 'A' && s[1] == 'D'
    ensures Parse(s) == match ParseAction(s) case Some(a) => Some(Operator(a)) case None => None
  {
    assert ACCEPT_TEXT[1] == 'C' && SKIP_TEXT[0] == 'S' && FORCED_REROLL_TEXT[0] == 'B' && POST_ADJUST[0] == 'P';
  }

  lemma AdjustParts(t: NatureTrait, d: I16)
    ensures SplitWords(NormalizeAction(Adjust(t, d))) == ["ADJUST", t.Name(), SignedDecimal(d)]
  {
    SplitThree("ADJUST", t.Name(), SignedDecimal(d));
  }

  lemma AdjustRoundTrip(t: NatureTrait, d: I16)
    ensures Loggable(Operator(Adjust(t, d))) ==>
              ParseAction(NormalizeAction(Adjust(t, d))) == Some(Adjust(t, d))
  {
    AdjustParts(t, d);
    TraitRoundTrip(t);
    assert Lower("ADJUST") == "adjust";
    if Loggable(Operator(Adjust(t, d))) {
      SignedDecimalParses(d, 0x7FFF);
      AdjustTextIsWellFormed(t, d);
    }
  }

  lemma PostAdjustIsReserved(s: string)
    requires POST_ADJUST <= s
    ensures Parse(s) == ParsePostAdjust(s)
  {
    assert s[0] == 'P' && SKIP_TEXT[0] == 'S' && ACCEPT_TEXT[0] == 'A' && FORCED_REROLL_TEXT[0] == 'B';
  }

  lemma PostAdjustParts(t: NatureTrait, v: U8)
    ensures POST_ADJUST <= Normalize(PostConfirmationAdjust(t, v))
    ensures SplitWords(Normalize(PostConfirmationAdjust(t, v))) == [POST_ADJUST, t.Name(), Decimal(v)]
  {
    DecimalIsWord(v);
    SplitThree(POST_ADJUST, t.Name(), Decimal(v));
  }

  lemma PostAdjustRoundTrip(t: NatureTrait, v: U8)
    ensures Parse(Normalize(PostConfirmationAdjust(t, v))) ==
            if v <= MAX_SLIDER then Some(PostConfirmationAdjust(t, v)) else None
  {
    PostAdjustParts(t, v);
    PostAdjustIsReserved(Normalize(PostConfirmationAdjust(t, v)));
    DecimalParses(v, 0xFF);
    TraitRoundTrip(t);
  }

  /** The log can hold an action exactly when its parameters are in the documented ranges. */
  lemma LoggableIffTextParsesBack(a: RecordedAction)
    ensures Parse(Normalize(a)) == Some(a) <==> Loggable(a)
  {
    match a
    case Operator(Adjust(t, d)) => AdjustIsLoggable(t, d);
    case Operator(action) => CommandRoundTrip(action);
    case PostConfirmationAdjust(t, v) => PostAdjustRoundTrip(t, v);
    case _ => FixedTextsParse();
    hide Parse;
  }

  lemma FixedTextsParse()
    ensures Parse(SKIP_TEXT) == Some(SkipForTesting) && Parse(ACCEPT_TEXT) == Some(AcceptDefault)
    ensures Parse(FORCED_REROLL_TEXT) == Some(ForcedRerollEpoch)
  {
    assert ACCEPT_TEXT[0] == 'A' && SKIP_TEXT[0] == 'S' && FORCED_REROLL_TEXT[0] == 'B';
  }

  /** No parser yields an adjustment outside the documented range. */
  lemma ParsedAdjustIsInRange(text: string, t: NatureTrait, d: I16)
    ensures ParseAction(text) == Some(Adjust(t, d)) ==> Loggable(Operator(Adjust(t, d)))
  {
    hide SplitWords, ParseTrait, Lower, WellFormedResponse, ParseSigned;
  }

  lemma AdjustIsLoggable(t: NatureTrait, d: I16)
    ensures Parse(Normalize(Operator(Adjust(t, d)))) == Some(Operator(Adjust(t, d)))
            <==> Loggable(Operator(Adjust(t, d)))
  {
    var text := NormalizeAction(Adjust(t, d));
    AdjustRoundTrip(t, d);
    ParsedAdjustIsInRange(text, t, d);
    AdjustIsNotReserved(text);
    hide Parse, ParseAction, SignedDecimal;
  }

  /** Two loggable actions never share a text, so a log line names one action. */
  lemma NormalizedTextIsInjective(a: RecordedAction, b: RecordedAction)
    requires Loggable(a) && Loggable(b)
    requires Normalize(a) == Normalize(b)
    ensures a == b
  {
    hide Parse;
    LoggableIffTextParsesBack(a);
    LoggableIffTextParsesBack(b);
  }
}
