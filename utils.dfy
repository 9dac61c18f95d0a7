/** The pure helpers of the frontend's `Utils` object. */
module Utils {
  import opened Wrappers
  import opened JsText

  // ---------------------------------------------------------------------------
  // formatDuration

  /** `formatDuration(minutes)`: "N min" below an hour, otherwise "Hh" or "Hh Mm". */
  function FormatDuration(minutes: nat): (r: string)
    ensures minutes < 60 <==> |r| >= 4 && r[|r| - 4..] == " min"
  {
    if minutes < 60 then
      NatToString(minutes) + " min"
    else
      var hours := minutes / 60;
      var mins := minutes % 60;
      if mins > 0 then
        var text := NatToString(hours) + "h " + NatToString(mins) + "m";
        assert text[|text| - 1] == 'm';
        text
      else
        var text := NatToString(hours) + "h";
        assert text[|text| - 1] == 'h';
        text
  }

  /**
   * Reads a duration label back. Only the three shapes `FormatDuration`
   * prints are accepted, and only with their ranges: "N min" with N < 60,
   * "Hh" with H >= 1, and "Hh Mm" with H >= 1 and 0 < M < 60.
   */
  function ParseDuration(s: string): Option<nat> {
    var (h, rest) := SpanDigits(s, 10);
    if h == [] then None else ParseUnit(DigitsValue(h, 10), rest)
  }

  /** The part of a duration label after its leading number `n`. */
  function ParseUnit(n: nat, rest: string): Option<nat> {
    if rest == " min" then
      if n < 60 then Some(n) else None
    else if rest == "h" then
      if n >= 1 then Some(60 * n) else None
    else if |rest| >= 2 && rest[..2] == "h " then
      ParseMinutesAfterHours(n, rest[2..])
    else None
  }

  /** The "Mm" part of an "Hh Mm" label, after `hours` hours. */
  function ParseMinutesAfterHours(hours: nat, s: string): Option<nat> {
    var (m, tail) := SpanDigits(s, 10);
    var mv := DigitsValue(m, 10);
    if m != [] && tail == "m" && hours >= 1 && 0 < mv < 60 then Some(60 * hours + mv) else None
  }

  lemma ParseMinutesLabel(m: nat)
    requires m < 60
    ensures ParseDuration(NatToString(m) + " min") == Some(m)
  {
    SpanNatToString(m, " min");
  }

  lemma ParseHoursLabel(h: nat)
    requires h >= 1
    ensures ParseDuration(NatToString(h) + "h") == Some(60 * h)
  {
    SpanNatToString(h, "h");
  }

  lemma ParseUnitHoursMinutes(h: nat, m: nat)
    requires h >= 1 && 0 < m < 60
    ensures ParseUnit(h, "h " + NatToString(m) + "m") == Some(60 * h + m)
  {
    var rest := "h " + NatToString(m) + "m";
    assert rest[0] == 'h';
    assert rest[..2] == "h " && rest[2..] == NatToString(m) + "m";
    SpanNatToString(m, "m");
  }

  lemma ParseHoursMinutesLabel(h: nat, m: nat)
    requires h >= 1 && 0 < m < 60
    ensures ParseDuration(NatToString(h) + "h " + NatToString(m) + "m") == Some(60 * h + m)
  {
    var rest := "h " + NatToString(m) + "m";
    assert NatToString(h) + "h " + NatToString(m) + "m" == NatToString(h) + rest;
    SpanNatToString(h, rest);
    ParseUnitHoursMinutes(h, m);
  }

  /**
   * Every label `FormatDuration` prints reads back as the minutes it was
   * printed from, so the hours and minutes shown satisfy hours * 60 + mins == m,
   * with 0 < mins < 60 whenever the minutes are shown.
   */
  lemma FormatDurationRoundTrip(m: nat)
    ensures ParseDuration(FormatDuration(m)) == Some(m)
  {
    var hours, mins := m / 60, m % 60;
    assert 60 * hours + mins == m;
    if m < 60 {
      ParseMinutesLabel(m);
    } else if mins > 0 {
      assert FormatDuration(m) == NatToString(hours) + "h " + NatToString(mins) + "m";
      ParseHoursMinutesLabel(hours, mins);
    } else {
      assert FormatDuration(m) == NatToString(hours) + "h";
      ParseHoursLabel(hours);
    }
  }

  /** Different numbers of minutes never share a label. */
  lemma FormatDurationInjective(a: nat, b: nat)
    requires FormatDuration(a) == FormatDuration(b)
    ensures a == b
  {
    FormatDurationRoundTrip(a);
    FormatDurationRoundTrip(b);
  }

  /** Below an hour the label is the number itself followed by " min". */
  lemma FormatDurationMinutes(m: nat)
    requires m < 60
    ensures FormatDuration(m) == NatToString(m) + " min"
  {
  }

  // ---------------------------------------------------------------------------
  // capitalize

  /** `capitalize(str)`: the first character upper-cased, the rest lower-cased. */
  function Capitalize(s: string): (r: string)
    ensures |r| == |s|
    ensures s != [] ==> r[0] == UpperChar(s[0])
    ensures forall i :: 1 <= i < |s| ==> r[i] == LowerChar(s[i])
  {
    if s == [] then [] else [UpperChar(s[0])] + Lower(s[1..])
  }

  /** Capitalizing twice changes nothing more. */
  lemma CapitalizeIdempotent(s: string)
    ensures Capitalize(Capitalize(s)) == Capitalize(s)
  {
    var c := Capitalize(s);
    assert |Capitalize(c)| == |c|;
    forall i | 0 <= i < |c| ensures Capitalize(c)[i] == c[i] {
    }
  }

  // ---------------------------------------------------------------------------
  // validateEmail

  /** A character of the class `[^\s@]`. */
  predicate EmailChar(c: char) {
    !IsSpace(c) && c != '@'
  }

  predicate AllEmailChars(s: string) {
    forall i :: 0 <= i < |s| ==> EmailChar(s[i])
  }

  /**
   * `validateEmail(email)`: the pattern /^[^\s@]+@[^\s@]+\.[^\s@]+$/ matches,
   * that is, the string splits at an '@' and a later '.' into three non-empty
   * runs of `[^\s@]`.
   */
  predicate ValidateEmail(email: string) {
    exists at, dot | 0 < at && at + 1 < dot && dot + 1 < |email| ::
      && email[at] == '@' && email[dot] == '.'
      && AllEmailChars(email[..at])
      && AllEmailChars(email[at + 1..dot])
      && AllEmailChars(email[dot + 1..])
  }

  predicate NoSpace(email: string) {
    forall i :: 0 <= i < |email| ==> !IsSpace(email[i])
  }

  /** `email[at]` is the one and only '@' of `email`. */
  predicate OnlyAtSignAt(email: string, at: nat) {
    at < |email| && email[at] == '@' && forall i :: 0 <= i < |email| && email[i] == '@' ==> i == at
  }

  /** `domain` has a '.' that is neither its first nor its last character. */
  predicate HasInnerDot(domain: string) {
    exists j :: 0 < j < |domain| - 1 && domain[j] == '.'
  }

  /**
   * The same acceptance stated without the pattern: no white space, exactly
   * one '@', something before it, and a '.' after it that is neither the
   * first nor the last character of the part after the '@'.
   */
  predicate WellFormedEmail(email: string) {
    NoSpace(email) && exists at: nat | at < |email| :: OnlyAtSignAt(email, at) && at > 0 && HasInnerDot(email[at + 1..])
  }

  lemma MatchedEmailIsWellFormed(email: string, at: nat, dot: nat)
    requires 0 < at && at + 1 < dot && dot + 1 < |email|
    requires email[at] == '@' && email[dot] == '.'
    requires AllEmailChars(email[..at])
    requires AllEmailChars(email[at + 1..dot])
    requires AllEmailChars(email[dot + 1..])
    ensures NoSpace(email) && OnlyAtSignAt(email, at) && HasInnerDot(email[at + 1..])
  {
    forall i | 0 <= i < |email| && i != at && i != dot
      ensures EmailChar(email[i])
    {
      if i < at {
        assert email[i] == email[..at][i];
      } else if i < dot {
        assert email[i] == email[at + 1..dot][i - at - 1];
      } else {
        assert email[i] == email[dot + 1..][i - dot - 1];
      }
    }
    var domain := email[at + 1..];
    assert domain[dot - at - 1] == '.';
  }

  lemma WellFormedEmailMatches(email: string, at: nat, j: nat)
    requires NoSpace(email) && OnlyAtSignAt(email, at) && at > 0
    requires 0 < j < |email[at + 1..]| - 1 && email[at + 1..][j] == '.'
    ensures ValidateEmail(email)
  {
    var dot := at + 1 + j;
    assert email[dot] == '.';
    assert AllEmailChars(email[..at]);
    assert AllEmailChars(email[at + 1..dot]);
    assert AllEmailChars(email[dot + 1..]);
  }

  /** The pattern accepts exactly the well-formed addresses. */
  lemma ValidateEmailCharacterization(email: string)
    ensures ValidateEmail(email) <==> WellFormedEmail(email)
  {
    if ValidateEmail(email) {
      ValidEmailIsWellFormed(email);
    }
    if WellFormedEmail(email) {
      WellFormedEmailIsValid(email);
    }
  }

  lemma ValidEmailIsWellFormed(email: string)
    requires ValidateEmail(email)
    ensures WellFormedEmail(email)
  {
    var at, dot :| 0 < at && at + 1 < dot && dot + 1 < |email|
      && email[at] == '@' && email[dot] == '.'
      && AllEmailChars(email[..at])
      && AllEmailChars(email[at + 1..dot])
      && AllEmailChars(email[dot + 1..]);
    MatchedEmailIsWellFormed(email, at, dot);
    var a: nat := at;
    assert a < |email| && OnlyAtSignAt(email, a) && a > 0 && HasInnerDot(email[a + 1..]);
  }

  lemma WellFormedEmailIsValid(email: string)
    requires WellFormedEmail(email)
    ensures ValidateEmail(email)
  {
    var at: nat :| at < |email| && OnlyAtSignAt(email, at) && at > 0 && HasInnerDot(email[at + 1..]);
    var domain := email[at + 1..];
    var j :| 0 < j < |domain| - 1 && domain[j] == '.';
    WellFormedEmailMatches(email, at, j);
  }

  // ---------------------------------------------------------------------------
  // getRoomClassName

  /** The room-name keyword to CSS class suffix table. */
  const RoomClasses: map<string, string> := map[
    "business" := "business",
    "food" := "food",
    "banking" := "banking",
    "travel" := "travel",
    "technology" := "tech",
    "daily" := "daily",
    "learning" := "learning",
    "health" := "health",
    "education" := "education",
    "career" := "career",
    "cultural" := "cultural",
    "legal" := "legal",
    "environment" := "environment",
    "media" := "media",
    "sports" := "sports",
    "shopping" := "shopping",
    "emergency" := "emergency",
    "housing" := "housing",
    "relationships" := "relationships",
    "grammar" := "grammar"
  ]

  /** The class used when the first word is not in the table. */
  const DefaultRoomClass := "business"

  /** `s.split(' ')[0]`: everything before the first space character. */
  function FirstWord(s: string): (r: string)
    ensures r <= s
    ensures forall i :: 0 <= i < |r| ==> r[i] != ' '
    ensures |r| < |s| ==> s[|r|] == ' '
  {
    if s == [] || s[0] == ' ' then [] else [s[0]] + FirstWord(s[1..])
  }

  /** The lookup key `getRoomClassName` computes from a room name. */
  function RoomKey(roomName: string): (r: string)
    ensures |r| <= |roomName| && r <= Lower(roomName)
    ensures forall i :: 0 <= i < |r| ==> r[i] != ' '
    ensures |r| < |roomName| ==> roomName[|r|] == ' '
  {
    FirstWord(Lower(roomName))
  }

  /**
   * `getRoomClassName(roomName)` as intended: the table entry for the
   * lower-cased first word, `DefaultRoomClass` for any other word.
   */
  function GetRoomClassName(roomName: string): (r: string)
    ensures r in RoomClasses.Values
    ensures RoomKey(roomName) in RoomClasses ==> r == RoomClasses[RoomKey(roomName)]
    ensures RoomKey(roomName) !in RoomClasses ==> r == DefaultRoomClass
  {
    var key := RoomKey(roomName);
    if key in RoomClasses then RoomClasses[key]
    else
      assert RoomClasses["business"] == DefaultRoomClass;
      DefaultRoomClass
  }

  /** The class does not depend on how the room name is capitalised. */
  lemma RoomClassIgnoresCase(roomName: string)
    ensures GetRoomClassName(Lower(roomName)) == GetRoomClassName(roomName)
  {
    LowerIdempotent(roomName);
  }

  /** A word of lower-case letters only. */
  predicate LowerWord(k: string) {
    forall i :: 0 <= i < |k| ==> IsLower(k[i])
  }

  /** A word that lower-cases to a word of letters, followed by a space or nothing, is the lookup key. */
  lemma FirstWordOfKey(word: string, rest: string)
    requires LowerWord(Lower(word))
    requires rest == [] || rest[0] == ' '
    ensures RoomKey(word + rest) == Lower(word)
  {
    LowerAppend(word, rest);
    FirstWordPrefix(Lower(word), Lower(rest));
  }

  /** A string without spaces, followed by a space or nothing, is the first word. */
  lemma {:induction false} FirstWordPrefix(k: string, rest: string)
    requires forall i :: 0 <= i < |k| ==> k[i] != ' '
    requires rest == [] || rest[0] == ' '
    ensures FirstWord(k + rest) == k
  {
    if k != [] {
      assert (k + rest)[1..] == k[1..] + rest;
      FirstWordPrefix(k[1..], rest);
      assert [k[0]] + k[1..] == k;
    } else {
      assert k + rest == rest;
    }
  }

  /**
   * A room name whose first word is a table key, in any letter case, gets
   * that key's class, whatever follows after a space.
   */
  lemma RoomClassOfKey(word: string, rest: string)
    requires Lower(word) in RoomClasses && LowerWord(Lower(word))
    requires rest == [] || rest[0] == ' '
    ensures GetRoomClassName(word + rest) == RoomClasses[Lower(word)]
  {
    FirstWordOfKey(word, rest);
  }

  /** The class depends only on the lower-cased first word. */
  lemma RoomClassDependsOnKey(a: string, b: string)
    requires RoomKey(a) == RoomKey(b)
    ensures GetRoomClassName(a) == GetRoomClassName(b)
  {
  }

  // ---------------------------------------------------------------------------
  // getRoomClassName as written

  /**
   * What reading a property of a plain object literal can yield: one of its
   * own string values, a member inherited from `Object.prototype` (the
   * `Object` function under "constructor", the prototype object itself under
   * "__proto__"), or `undefined`.
   */
  datatype JsValue = Str(s: string) | ObjectConstructor | ObjectPrototype | Undefined

  /** `roomMap[key]` on the object literal: own entries first, then the inherited names. */
  function RoomMapLookup(key: string): JsValue {
    if key in RoomClasses then Str(RoomClasses[key])
    else if key == "constructor" then ObjectConstructor
    else if key == "__proto__" then ObjectPrototype
    else Undefined
  }

  /**
   * `roomMap[key] || 'business'` as the source writes it: every own value is a
   * non-empty string and every inherited member is truthy, so only
   * `undefined` falls back to the default.
   */
  function GetRoomClassNameAsWritten(roomName: string): (r: JsValue)
    ensures !r.Undefined?
    ensures r.Str? ==> r.s in RoomClasses.Values
    ensures r.Str? <==> RoomKey(roomName) != "constructor" && RoomKey(roomName) != "__proto__"
  {
    ConstructorIsNoKey();
    ProtoIsNoKey();
    assert RoomClasses["business"] == DefaultRoomClass;
    var v := RoomMapLookup(RoomKey(roomName));
    if v.Undefined? then Str(DefaultRoomClass) else v
  }

  /** Apart from the two inherited names, the written lookup is the intended one. */
  lemma AsWrittenAgreesOffPrototypeNames(roomName: string)
    requires RoomKey(roomName) != "constructor" && RoomKey(roomName) != "__proto__"
    ensures GetRoomClassNameAsWritten(roomName) == Str(GetRoomClassName(roomName))
  {
  }

  /** A room named "Constructor Basics" gets the `Object` function instead of a class name. */
  lemma AsWrittenConstructorRoom()
    ensures GetRoomClassNameAsWritten("Constructor Basics") == ObjectConstructor
    ensures GetRoomClassName("Constructor Basics") == DefaultRoomClass
  {
    ConstructorRoomKey();
    ConstructorIsNoKey();
  }

  /** The lookup key of "Constructor Basics" is "constructor". */
  lemma ConstructorRoomKey()
    ensures RoomKey("Constructor Basics") == "constructor"
  {
    assert Lower("Constructor") == "constructor";
    FirstWordOfKey("Constructor", " Basics");
    assert "Constructor" + " Basics" == "Constructor Basics";
  }

  /** "constructor" is not one of the table's own keys. */
  lemma ConstructorIsNoKey()
    ensures "constructor" !in RoomClasses
  {
  }

  /** Nor is "__proto__". */
  lemma ProtoIsNoKey()
    ensures "__proto__" !in RoomClasses
  {
  }
}
