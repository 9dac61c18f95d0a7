/** The decisions of the frontend's `App` object: viewport categories and the rooms staleness rule. */
module App {
  import opened Wrappers
  import opened JsText

  // ---------------------------------------------------------------------------
  // getScreenSize, isMobile

  /** Screen size categories, narrowest first. */
  datatype ScreenSize = XS | SM | MD | LG | XL

  /** Position of a category in the order narrowest to widest. */
  function SizeRank(s: ScreenSize): nat {
    match s
    case XS => 0
    case SM => 1
    case MD => 2
    case LG => 3
    case XL => 4
  }

  /** The widths at which the next category begins. */
  const Breakpoints: seq<int> := [576, 768, 992, 1200]

  /**
   * `getScreenSize()` for the window width `width`: the category whose rank
   * is the number of breakpoints the width has reached.
   */
  function GetScreenSize(width: int): (r: ScreenSize)
    ensures forall i :: 0 <= i < |Breakpoints| ==> (Breakpoints[i] <= width <==> i < SizeRank(r))
  {
    if width < 576 then XS
    else if width < 768 then SM
    else if width < 992 then MD
    else if width < 1200 then LG
    else XL
  }

  /** A wider window never falls in a narrower category. */
  lemma GetScreenSizeMonotone(w1: int, w2: int)
    requires w1 <= w2
    ensures SizeRank(GetScreenSize(w1)) <= SizeRank(GetScreenSize(w2))
  {
  }

  /** `isMobile()` for the window width `width`. */
  predicate IsMobile(width: int) {
    width <= 768
  }

  /**
   * The mobile test and the categories use different boundaries: every xs
   * and sm width is mobile, no lg or xl width is, and among md widths only
   * 768 is.
   */
  lemma MobileAgainstScreenSize(width: int)
    ensures SizeRank(GetScreenSize(width)) <= 1 ==> IsMobile(width)
    ensures SizeRank(GetScreenSize(width)) >= 3 ==> !IsMobile(width)
    ensures GetScreenSize(width) == MD && IsMobile(width) <==> width == 768
  {
  }

  // ---------------------------------------------------------------------------
  // handlePageVisible

  /** Five minutes in milliseconds. */
  const StaleAfterMs: int := 5 * 60 * 1000

  /** The leading optional sign of a `parseInt` argument, and what follows it. */
  function SplitSign(s: string): (bool, string) {
    if s != [] && (s[0] == '-' || s[0] == '+') then (s[0] == '-', s[1..]) else (false, s)
  }

  /**
   * `parseInt(s)` without a radix: leading white space is skipped, a sign is
   * read, a "0x"/"0X" prefix selects base 16 (otherwise base 10), and the
   * longest run of digits of that base is read; no digit at all gives `NaN`,
   * modelled as `None`. Anything after the digits is ignored.
   */
  function ParseInt(s: string): (r: Option<int>)
    ensures TrimStart(s) == [] ==> r.None?
    ensures r.Some? && r.value < 0 ==> TrimStart(s)[0] == '-'
  {
    var (negative, body) := SplitSign(TrimStart(s));
    var hex := |body| >= 2 && body[0] == '0' && (body[1] == 'x' || body[1] == 'X');
    var radix := if hex then 16 else 10;
    var (run, _) := SpanDigits(if hex then body[2..] else body, radix);
    if run == [] then None
    else
      var m: int := DigitsValue(run, radix);
      Some(if negative then -m else m)
  }

  /** A stored decimal timestamp is read back exactly. */
  lemma ParseIntOfNatToString(t: nat)
    ensures ParseInt(NatToString(t)) == Some(t)
  {
    var s := NatToString(t);
    assert !IsSpace(s[0]);
    assert TrimStart(s) == s;
    assert SplitSign(s) == (false, s);
    assert !(|s| >= 2 && s[0] == '0');
    SpanNatToString(t, []);
    assert s + [] == s;
  }

  /**
   * The staleness decision of `handlePageVisible()`: `lastUpdate` is the
   * stored 'roomsLastUpdate' item (`None` when absent) and `now` the current
   * time in milliseconds. Rooms are reloaded when nothing (or the empty
   * string) is stored, or when more than five minutes have passed since the
   * stored time; a stored value that reads as `NaN` never reloads, because
   * every comparison with `NaN` is false.
   */
  predicate ShouldReloadRooms(lastUpdate: Option<string>, now: int) {
    if lastUpdate.None? || lastUpdate.value == "" then true
    else
      match ParseInt(lastUpdate.value)
      case None => false
      case Some(t) => now - t > StaleAfterMs
  }

  /** For a stored decimal timestamp, reload exactly when it is more than five minutes old. */
  lemma ReloadWhenStale(t: nat, now: int)
    ensures ShouldReloadRooms(Some(NatToString(t)), now) <==> now - t > 300000
  {
    ParseIntOfNatToString(t);
  }

  /** Exactly five minutes after the stored time is not yet stale. */
  lemma NoReloadAtExactlyFiveMinutes(t: nat)
    ensures !ShouldReloadRooms(Some(NatToString(t)), t + 300000)
    ensures ShouldReloadRooms(Some(NatToString(t)), t + 300001)
  {
    ReloadWhenStale(t, t + 300000);
    ReloadWhenStale(t, t + 300001);
  }

  /** Nothing stored, or an empty item, always reloads. */
  lemma ReloadWithoutTimestamp(now: int)
    ensures ShouldReloadRooms(None, now)
    ensures ShouldReloadRooms(Some(""), now)
  {
  }

  /** A stored value that `parseInt` reads as `NaN` never reloads, however late it is. */
  lemma NoReloadOnNaN(stored: string, now: int)
    requires stored != "" && ParseInt(stored) == None
    ensures !ShouldReloadRooms(Some(stored), now)
  {
  }

  /** A word such as "never" has no leading number. */
  lemma NeverReadsAsNaN()
    ensures ParseInt("never") == None
  {
    var s := "never";
    assert TrimStart(s) == s;
    assert SplitSign(s) == (false, s);
    assert !IsDigitIn(s[0], 10);
  }
}
