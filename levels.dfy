/** The application's six severity levels and `LevelParser`, which turns a
    user-supplied name or number into one of them or throws. */
module Levels {
  import opened Wrappers
  import opened Text
  import Numbers

  /** `Level`, least severe first. */
  datatype Level = NOTSET | DEBUG | INFO | WARNING | ERROR | CRITICAL

  /** The enum's numeric value. */
  function Code(l: Level): int {
    match l
    case NOTSET => 0
    case DEBUG => 10
    case INFO => 20
    case WARNING => 30
    case ERROR => 40
    case CRITICAL => 50
  }

  /** The enum member's name, which is also the text the parser accepts. */
  function Name(l: Level): string {
    match l
    case NOTSET => "NOTSET"
    case DEBUG => "DEBUG"
    case INFO => "INFO"
    case WARNING => "WARNING"
    case ERROR => "ERROR"
    case CRITICAL => "CRITICAL"
  }

  /** The `InvalidOperationException` that `Parse` throws. */
  datatype LevelError = InvalidLevel(message: string)

  /** The message of that exception, quoting the rejected text. */
  function ErrorMessage(text: string): string {
    "Invalid log level '" + text + "'. Use " + Choices
  }

  /** The accepted names and codes, as the message lists them. */
  const Choices: string :=
    "CRITICAL, " + "ERROR, " + "WARNING, " + "INFO, " + "DEBUG, " + "NOTSET or " +
    "50/" + "40/" + "30/" + "20/" + "10/" + "0."

  /** The integer branch of `Parse`: 50 and above is CRITICAL, the four other
      named codes give their level, and every other integer gives NOTSET. */
  function FromCode(n: int): (l: Level)
    ensures l == CRITICAL <==> n >= 50
    ensures l != CRITICAL && l != NOTSET ==> Code(l) == n
    ensures l == NOTSET ==> forall m: Level :: Code(m) != n || m == NOTSET
  {
    if n >= 50 then CRITICAL
    else if n == 40 then ERROR
    else if n == 30 then WARNING
    else if n == 20 then INFO
    else if n == 10 then DEBUG
    else NOTSET
  }

  /** What the name branch compares: the text trimmed and upper-cased. */
  function Normalize(text: string): string {
    ToUpperInvariant(Trim(text))
  }

  /** The name branch of `Parse`. */
  function FromName(name: string): (r: Option<Level>)
    ensures r.None? ==> forall l: Level :: Name(l) != name
    ensures r.Some? ==> Name(r.value) == name
  {
    if name == "CRITICAL" then Some(CRITICAL)
    else if name == "ERROR" then Some(ERROR)
    else if name == "WARNING" then Some(WARNING)
    else if name == "INFO" then Some(INFO)
    else if name == "DEBUG" then Some(DEBUG)
    else if name == "NOTSET" then Some(NOTSET)
    else None
  }

  /** `LevelParser.Parse`: text that `int.TryParse` accepts is bucketed by
      `FromCode` and never throws; any other text is trimmed, upper-cased and
      matched against the six names; everything else throws. */
  function Parse(text: string): (r: Result<Level, LevelError>)
    ensures Numbers.ParseInt32(text).Some? ==> r.Success?
    ensures r.Failure? <==>
      Numbers.ParseInt32(text).None? && forall l: Level :: Name(l) != Normalize(text)
    ensures r.Failure? ==> r.error.message == ErrorMessage(text)
    ensures r.Success? && Numbers.ParseInt32(text).None? ==> Name(r.value) == Normalize(text)
  {
    match Numbers.ParseInt32(text)
    case Some(n) => Success(FromCode(n))
    case None =>
      match FromName(Normalize(text))
      case Some(l) => Success(l)
      case None => Failure(InvalidLevel(ErrorMessage(text)))
  }

  /** `LevelParser.Resolve`: the fallback text stands in for null, empty or
      white-space-only text. */
  function Resolve(text: Option<string>, fallback: string): (r: Result<Level, LevelError>)
    ensures IsNullOrWhiteSpace(text) ==> r == Parse(fallback)
    ensures !IsNullOrWhiteSpace(text) ==> r == Parse(text.value)
  {
    Parse(if IsNullOrWhiteSpace(text) then fallback else text.value)
  }

  // ---------- properties ----------

  /** Levels are ordered by their codes. */
  predicate AtLeast(a: Level, b: Level) {
    Code(a) >= Code(b)
  }

  /** Distinct levels have distinct codes and distinct names. */
  lemma CodesAndNamesDistinct(a: Level, b: Level)
    requires a != b
    ensures Code(a) != Code(b) && Name(a) != Name(b)
  {
  }

  /** Bucketing never moves a non-negative number up: the level's code is at most
      the number, and a level's own code is bucketed back to that level. */
  lemma FromCodeBounds(n: int, l: Level)
    ensures n >= 0 ==> Code(FromCode(n)) <= n
    ensures FromCode(Code(l)) == l
  {
  }

  /** Every integer of at least 50 is CRITICAL, every integer other than the five
      named codes below 50 is NOTSET. */
  lemma ParseIntegerBuckets(text: string, n: int)
    requires Numbers.ParseInt32(text) == Some(n)
    ensures n >= 50 ==> Parse(text) == Success(CRITICAL)
    ensures n == 40 ==> Parse(text) == Success(ERROR)
    ensures n == 30 ==> Parse(text) == Success(WARNING)
    ensures n == 20 ==> Parse(text) == Success(INFO)
    ensures n == 10 ==> Parse(text) == Success(DEBUG)
    ensures n < 50 && n != 40 && n != 30 && n != 20 && n != 10 ==> Parse(text) == Success(NOTSET)
  {
  }

  /** A first character of a level name, in any case the invariant upper-casing
      folds, is a letter: not a digit, a sign or white space of either kind. */
  lemma NameLetter(c: char, l: Level, i: int)
    requires 0 <= i < |Name(l)| && ToUpperChar(c) == Name(l)[i]
    ensures !Numbers.IsDigit(c) && c != '+' && c != '-'
    ensures !Numbers.IsNumberWhite(c) && !IsWhiteSpace(c)
  {
    assert 'A' <= Name(l)[i] <= 'Z';
  }

  /** Text that starts with a digit never upper-cases to a level name. */
  lemma DigitIsNoName(w: string, l: Level)
    requires |w| > 0 && Numbers.IsDigit(w[0])
    ensures ToUpperInvariant(w) != Name(l)
  {
    assert ToUpperInvariant(w)[0] == w[0];
    assert 'A' <= Name(l)[0] <= 'Z';
  }

  /** Padding made of white space is invisible to the name branch. */
  lemma NormalizePadded(pre: string, word: string, post: string)
    requires forall c | c in pre :: IsWhiteSpace(c)
    requires forall c | c in post :: IsWhiteSpace(c)
    requires |word| > 0 && !IsWhiteSpace(word[0]) && !IsWhiteSpace(word[|word| - 1])
    ensures Normalize(pre + word + post) == ToUpperInvariant(word)
  {
    TrimBothPadded(pre, word, post, IsWhiteSpace);
  }

  /** A level name in any case, padded with white space, is not a numeral. */
  lemma SpelledNameIsNotNumeral(pre: string, word: string, post: string, l: Level)
    requires ToUpperInvariant(word) == Name(l)
    ensures Numbers.ParseInt32(pre + word + post) == None
  {
    var text := pre + word + post;
    assert |word| == |Name(l)| > 0;
    NameLetter(word[0], l, 0);
    assert text[|pre|] == word[0];
    Numbers.ForeignCharFails(text, |pre|);
  }

  /** A level name in any case, padded with white space, normalises to the name. */
  lemma SpelledNameNormalizes(pre: string, word: string, post: string, l: Level)
    requires forall c | c in pre :: IsWhiteSpace(c)
    requires forall c | c in post :: IsWhiteSpace(c)
    requires ToUpperInvariant(word) == Name(l)
    ensures Normalize(pre + word + post) == Name(l)
  {
    assert |word| == |Name(l)| > 0;
    NameLetter(word[0], l, 0);
    NameLetter(word[|word| - 1], l, |word| - 1);
    NormalizePadded(pre, word, post);
  }

  /** Names match case-insensitively after surrounding white space is trimmed:
      any spelling that upper-cases to a level's name, padded with white space,
      parses to that level. */
  lemma ParseNameAnyCase(pre: string, word: string, post: string, l: Level)
    requires forall c | c in pre :: IsWhiteSpace(c)
    requires forall c | c in post :: IsWhiteSpace(c)
    requires ToUpperInvariant(word) == Name(l)
    ensures Parse(pre + word + post) == Success(l)
  {
    SpelledNameIsNotNumeral(pre, word, post, l);
    SpelledNameNormalizes(pre, word, post, l);
    NameBranch(pre + word + post, l);
  }

  /** Text that is no integer and normalises to a level's name gives that
      level. */
  lemma NameBranch(text: string, l: Level)
    requires Numbers.ParseInt32(text) == None && Normalize(text) == Name(l)
    ensures Parse(text) == Success(l)
  {
    var r := FromName(Name(l));
    if r.Some? && r.value != l {
      CodesAndNamesDistinct(r.value, l);
    }
  }

  /** Round trip through the name: `Parse(l.ToString()) == l`. */
  lemma NameRoundTrip(l: Level)
    ensures Parse(Name(l)) == Success(l)
  {
    NameCapitals(l);
    UpperFixed(Name(l));
    assert [] + Name(l) + [] == Name(l);
    ParseNameAnyCase([], Name(l), [], l);
  }

  /** Every level name is spelled in ASCII capitals. */
  lemma NameCapitals(l: Level)
    ensures forall i | 0 <= i < |Name(l)| :: 'A' <= Name(l)[i] <= 'Z'
  {
    match l
    case CRITICAL =>
    case ERROR =>
    case WARNING =>
    case INFO =>
    case DEBUG =>
    case NOTSET =>
  }

  /** Text made of ASCII capitals is its own upper-casing. */
  lemma UpperFixed(s: string)
    requires forall i | 0 <= i < |s| :: 'A' <= s[i] <= 'Z'
    ensures ToUpperInvariant(s) == s
  {
    assert forall i | 0 <= i < |s| :: ToUpperInvariant(s)[i] == s[i];
  }

  /** Round trip through the code: `Parse(((int)l).ToString()) == l`. */
  lemma CodeRoundTrip(l: Level)
    ensures Parse(Numbers.Decimal(Code(l))) == Success(l)
  {
    var text := Numbers.Decimal(Code(l));
    Numbers.DecimalRoundTrip(Code(l));
    IntegerBranch(text, Code(l));
    FromCodeBounds(0, l);
  }

  /** Text that parses as an integer goes through `FromCode`. */
  lemma IntegerBranch(text: string, n: int)
    requires Numbers.ParseInt32(text) == Some(n)
    ensures Parse(text) == Success(FromCode(n))
  {
  }

  /** `"  warning "` is WARNING. */
  lemma PaddedLowerCaseWarning(text: string)
    requires text == "  warning "
    ensures Parse(text) == Success(WARNING)
  {
    assert text == "  " + "warning" + " ";
    ParseNameAnyCase("  ", "warning", " ", WARNING);
  }

  /** Abbreviations are not names: `"WARN"` throws. */
  lemma AbbreviationFails(text: string)
    requires text == "WARN"
    ensures Parse(text) == Failure(InvalidLevel(ErrorMessage(text)))
  {
    Numbers.ForeignCharFails(text, 0);
    assert [] + text + [] == text;
    NormalizePadded([], text, []);
    forall l: Level ensures Name(l) != ToUpperInvariant(text) {
      WarnIsNoName(text, l);
    }
  }

  /** `"WARN"` upper-cases to none of the names: only INFO has four letters,
      and its last one differs. */
  lemma WarnIsNoName(text: string, l: Level)
    requires text == "WARN"
    ensures Name(l) != ToUpperInvariant(text)
  {
    var u := ToUpperInvariant(text);
    assert u[3] == ToUpperChar('N') == 'N';
    if l == INFO {
      assert Name(l)[3] == 'O';
    }
  }

  /** Upper-casing is culture-invariant: the Turkish dotless i (U+0131) stays
      as it is, so `"\U{131}nfo"` is not INFO and throws. */
  lemma DotlessInfoFails(text: string)
    requires text == "\U{131}nfo"
    ensures Parse(text) == Failure(InvalidLevel(ErrorMessage(text)))
  {
    Numbers.ForeignCharFails(text, 0);
    assert [] + text + [] == text;
    NormalizePadded([], text, []);
    forall l: Level ensures Name(l) != ToUpperInvariant(text) {
      DotlessIsNoName(text, l);
    }
  }

  /** `"\U{131}nfo"` upper-cases to a word that starts with U+0131, and every
      name starts with an ASCII letter. */
  lemma DotlessIsNoName(text: string, l: Level)
    requires text == "\U{131}nfo"
    ensures Name(l) != ToUpperInvariant(text)
  {
    var u := ToUpperInvariant(text);
    assert u[0] == ToUpperChar('\U{131}') == '\U{131}';
    assert 'A' <= Name(l)[0] <= 'Z';
  }

  /** A numeral outside the 32-bit range is not an integer, and not a name
      either: `"99999999999"` and every longer numeral throw. */
  lemma OverflowFails(text: string)
    requires |text| >= 11 && Numbers.AllDigits(text) && text[0] != '0'
    ensures Parse(text) == Failure(InvalidLevel(ErrorMessage(text)))
  {
    assert Numbers.IsDigit(text[0]) && Numbers.IsDigit(text[|text| - 1]);
    Numbers.TooLargeFails(text);
    assert [] + text + [] == text;
    NormalizePadded([], text, []);
    forall l: Level ensures Name(l) != Normalize(text) {
      DigitIsNoName(text, l);
    }
  }

  /** The exception's message names every accepted level and every code. */
  lemma MessageListsChoices(text: string, l: Level)
    ensures Contains(ErrorMessage(text), Name(l))
    ensures Contains(ErrorMessage(text), Numbers.Decimal(Code(l)))
  {
    ChoicesListLevel(l);
    var head := "Invalid log level '" + text + "'. Use ";
    ContainsInTail(head, Choices, Name(l));
    ContainsInTail(head, Choices, Numbers.Decimal(Code(l)));
  }

  lemma ChoicesListLevel(l: Level)
    ensures Contains(Choices, Name(l)) && Contains(Choices, Numbers.Decimal(Code(l)))
  {
    ChoicesListName(l);
    ChoicesListCode(l);
  }

  lemma ChoicesListName(l: Level)
    ensures Contains(Choices, Name(l))
  {
    match l
    case CRITICAL => OccursByIndex(Choices, "CRITICAL", 0);
    case ERROR => OccursByIndex(Choices, "ERROR", 10);
    case WARNING => OccursByIndex(Choices, "WARNING", 17);
    case INFO => OccursByIndex(Choices, "INFO", 26);
    case DEBUG => OccursByIndex(Choices, "DEBUG", 32);
    case NOTSET => OccursByIndex(Choices, "NOTSET", 39);
  }

  lemma ChoicesListCode(l: Level)
    ensures Contains(Choices, Numbers.Decimal(Code(l)))
  {
    match l
    case CRITICAL =>
      assert Numbers.Decimal(50) == "50";
      OccursByIndex(Choices, "50", 49);
    case ERROR =>
      assert Numbers.Decimal(40) == "40";
      OccursByIndex(Choices, "40", 52);
    case WARNING =>
      assert Numbers.Decimal(30) == "30";
      OccursByIndex(Choices, "30", 55);
    case INFO =>
      assert Numbers.Decimal(20) == "20";
      OccursByIndex(Choices, "20", 58);
    case DEBUG =>
      assert Numbers.Decimal(10) == "10";
      OccursByIndex(Choices, "10", 61);
    case NOTSET =>
      assert Numbers.Decimal(0) == "0";
      OccursByIndex(Choices, "0", 64);
  }

  lemma OccursByIndex(text: string, s: string, i: int)
    requires 0 <= i <= |text| - |s|
    requires forall k | 0 <= k < |s| :: text[i + k] == s[k]
    ensures OccursAt(text, s, i)
  {
    assert text[i..i + |s|] == s;
  }

  /** What `tail` contains, `head + tail` contains. */
  lemma ContainsInTail(head: string, tail: string, s: string)
    requires Contains(tail, s)
    ensures Contains(head + tail, s)
  {
    var i :| OccursAt(tail, s, i);
    assert (head + tail)[|head| + i..|head| + i + |s|] == tail[i..i + |s|];
    assert OccursAt(head + tail, s, |head| + i);
  }
}
