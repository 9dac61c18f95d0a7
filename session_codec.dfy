/**
 * The serialized form of the signed-in user kept under the 'user' storage
 * key. It stands for `JSON.stringify` / `JSON.parse`: every field is written
 * so that a reader knows where it ends (numbers end with ';', strings carry
 * their length, lists their count, optional parts a '0'/'1' tag), and
 * `Parse` fails on any text that is not exactly one encoded user.
 */
module SessionCodec {
  import opened Wrappers
  import opened JsText
  import opened Entities

  // ---------------------------------------------------------------------------
  // Numbers and strings

  function EncodeNat(n: nat): string {
    NatToString(n) + ";"
  }

  function DecodeNat(s: string): Option<(nat, string)> {
    var (run, rest) := SpanDigits(s, 10);
    if run != [] && rest != [] && rest[0] == ';' then Some((DigitsValue(run, 10), rest[1..])) else None
  }

  lemma DecodeEncodeNat(n: nat, rest: string)
    ensures DecodeNat(EncodeNat(n) + rest) == Some((n, rest))
  {
    assert EncodeNat(n) + rest == NatToString(n) + (";" + rest);
    SpanNatToString(n, ";" + rest);
    assert (";" + rest)[1..] == rest;
  }

  function EncodeInt(i: int): string {
    if i < 0 then "-" + EncodeNat(-i) else "+" + EncodeNat(i)
  }

  function DecodeInt(s: string): Option<(int, string)> {
    if s == [] || (s[0] != '-' && s[0] != '+') then None
    else
      match DecodeNat(s[1..])
      case None => None
      case Some((n, rest)) => Some((if s[0] == '-' then -(n as int) else n, rest))
  }

  lemma DecodeEncodeInt(i: int, rest: string)
    ensures DecodeInt(EncodeInt(i) + rest) == Some((i, rest))
  {
    var sign := if i < 0 then '-' else '+';
    var n: nat := if i < 0 then -i else i;
    assert EncodeInt(i) + rest == [sign] + (EncodeNat(n) + rest);
    DecodeEncodeNat(n, rest);
    DecodeSigned(sign, EncodeNat(n) + rest, n, rest);
  }

  /** A sign followed by a decodable count. */
  lemma DecodeSigned(sign: char, t: string, n: nat, r: string)
    requires sign == '-' || sign == '+'
    requires DecodeNat(t) == Some((n, r))
    ensures DecodeInt([sign] + t) == Some((if sign == '-' then -(n as int) else n, r))
  {
    assert ([sign] + t)[1..] == t;
  }

  function EncodeString(x: string): string {
    EncodeNat(|x|) + x
  }

  function DecodeString(s: string): Option<(string, string)> {
    match DecodeNat(s)
    case None => None
    case Some((n, rest)) => if n <= |rest| then Some((rest[..n], rest[n..])) else None
  }

  lemma DecodeEncodeString(x: string, rest: string)
    ensures DecodeString(EncodeString(x) + rest) == Some((x, rest))
  {
    assert EncodeString(x) + rest == EncodeNat(|x|) + (x + rest);
    DecodeEncodeNat(|x|, x + rest);
    assert (x + rest)[..|x|] == x;
    assert (x + rest)[|x|..] == rest;
  }

  // ---------------------------------------------------------------------------
  // Lists of strings

  function EncodeStringItems(xs: seq<string>): string {
    if xs == [] then "" else EncodeString(xs[0]) + EncodeStringItems(xs[1..])
  }

  function DecodeStringItems(k: nat, s: string): Option<(seq<string>, string)> {
    if k == 0 then Some(([], s))
    else
      match DecodeString(s)
      case None => None
      case Some((x, r)) =>
        match DecodeStringItems(k - 1, r)
        case None => None
        case Some((xs, r')) => Some(([x] + xs, r'))
  }

  /** Decoding one more encoded string in front of a decodable list. */
  lemma DecodeStringItemsCons(x: string, xs: seq<string>, rest: string)
    requires DecodeStringItems(|xs|, EncodeStringItems(xs) + rest) == Some((xs, rest))
    ensures DecodeStringItems(|xs| + 1, EncodeStringItems([x] + xs) + rest) == Some(([x] + xs, rest))
  {
    var tail := EncodeStringItems(xs) + rest;
    assert ([x] + xs)[1..] == xs;
    assert EncodeStringItems([x] + xs) + rest == EncodeString(x) + tail;
    DecodeEncodeString(x, tail);
  }

  lemma {:induction false} DecodeEncodeStringItems(xs: seq<string>, rest: string)
    ensures DecodeStringItems(|xs|, EncodeStringItems(xs) + rest) == Some((xs, rest))
  {
    if xs != [] {
      DecodeEncodeStringItems(xs[1..], rest);
      DecodeStringItemsCons(xs[0], xs[1..], rest);
      assert [xs[0]] + xs[1..] == xs;
    } else {
      assert EncodeStringItems(xs) + rest == rest;
    }
  }

  function EncodeOptStrings(o: Option<seq<string>>): string {
    match o
    case None => "0"
    case Some(xs) => "1" + EncodeNat(|xs|) + EncodeStringItems(xs)
  }

  function DecodeOptStrings(s: string): Option<(Option<seq<string>>, string)> {
    if s == [] then None
    else if s[0] == '0' then Some((None, s[1..]))
    else if s[0] == '1' then
      match DecodeNat(s[1..])
      case None => None
      case Some((k, r)) =>
        match DecodeStringItems(k, r)
        case None => None
        case Some((xs, r')) => Some((Some(xs), r'))
    else None
  }

  lemma DecodeEncodeOptStrings(o: Option<seq<string>>, rest: string)
    ensures DecodeOptStrings(EncodeOptStrings(o) + rest) == Some((o, rest))
  {
    match o
    case None =>
      assert (EncodeOptStrings(o) + rest)[1..] == rest;
    case Some(xs) =>
      var body := EncodeNat(|xs|) + (EncodeStringItems(xs) + rest);
      assert EncodeOptStrings(o) + rest == "1" + body;
      assert ("1" + body)[1..] == body;
      DecodeEncodeNat(|xs|, EncodeStringItems(xs) + rest);
      DecodeEncodeStringItems(xs, rest);
  }

  // ---------------------------------------------------------------------------
  // Progress records

  function EncodeProgress(p: Progress): string {
    EncodeString(p.roomId) + EncodeInt(p.progress) + EncodeOptStrings(p.completedLessons)
  }

  function DecodeProgress(s: string): Option<(Progress, string)> {
    match DecodeString(s)
    case None => None
    case Some((id, r1)) =>
      match DecodeInt(r1)
      case None => None
      case Some((pc, r2)) =>
        match DecodeOptStrings(r2)
        case None => None
        case Some((cl, r3)) => Some((Progress(id, pc, cl), r3))
  }

  lemma DecodeEncodeProgress(p: Progress, rest: string)
    ensures DecodeProgress(EncodeProgress(p) + rest) == Some((p, rest))
  {
    var r2 := EncodeOptStrings(p.completedLessons) + rest;
    var r1 := EncodeInt(p.progress) + r2;
    assert EncodeProgress(p) + rest == EncodeString(p.roomId) + r1;
    DecodeEncodeString(p.roomId, r1);
    DecodeEncodeInt(p.progress, r2);
    DecodeEncodeOptStrings(p.completedLessons, rest);
  }

  function EncodeProgressItems(ps: seq<Progress>): string {
    if ps == [] then "" else EncodeProgress(ps[0]) + EncodeProgressItems(ps[1..])
  }

  function DecodeProgressItems(k: nat, s: string): Option<(seq<Progress>, string)> {
    if k == 0 then Some(([], s))
    else
      match DecodeProgress(s)
      case None => None
      case Some((p, r)) =>
        match DecodeProgressItems(k - 1, r)
        case None => None
        case Some((ps, r')) => Some(([p] + ps, r'))
  }

  /** Decoding one more encoded record in front of a decodable list. */
  lemma DecodeProgressItemsCons(p: Progress, ps: seq<Progress>, rest: string)
    requires DecodeProgressItems(|ps|, EncodeProgressItems(ps) + rest) == Some((ps, rest))
    ensures DecodeProgressItems(|ps| + 1, EncodeProgressItems([p] + ps) + rest) == Some(([p] + ps, rest))
  {
    var tail := EncodeProgressItems(ps) + rest;
    assert ([p] + ps)[1..] == ps;
    assert EncodeProgressItems([p] + ps) + rest == EncodeProgress(p) + tail;
    DecodeEncodeProgress(p, tail);
  }

  lemma {:induction false} DecodeEncodeProgressItems(ps: seq<Progress>, rest: string)
    ensures DecodeProgressItems(|ps|, EncodeProgressItems(ps) + rest) == Some((ps, rest))
  {
    if ps != [] {
      DecodeEncodeProgressItems(ps[1..], rest);
      DecodeProgressItemsCons(ps[0], ps[1..], rest);
      assert [ps[0]] + ps[1..] == ps;
    } else {
      assert EncodeProgressItems(ps) + rest == rest;
    }
  }

  function EncodeOptProgress(o: Option<seq<Progress>>): string {
    match o
    case None => "0"
    case Some(ps) => "1" + EncodeNat(|ps|) + EncodeProgressItems(ps)
  }

  function DecodeOptProgress(s: string): Option<(Option<seq<Progress>>, string)> {
    if s == [] then None
    else if s[0] == '0' then Some((None, s[1..]))
    else if s[0] == '1' then
      match DecodeNat(s[1..])
      case None => None
      case Some((k, r)) =>
        match DecodeProgressItems(k, r)
        case None => None
        case Some((ps, r')) => Some((Some(ps), r'))
    else None
  }

  lemma DecodeEncodeOptProgress(o: Option<seq<Progress>>, rest: string)
    ensures DecodeOptProgress(EncodeOptProgress(o) + rest) == Some((o, rest))
  {
    match o
    case None =>
      assert (EncodeOptProgress(o) + rest)[1..] == rest;
    case Some(ps) =>
      DecodeEncodeSomeProgress(ps, rest);
  }

  lemma DecodeEncodeSomeProgress(ps: seq<Progress>, rest: string)
    ensures DecodeOptProgress(EncodeOptProgress(Some(ps)) + rest) == Some((Some(ps), rest))
  {
    var items := EncodeProgressItems(ps) + rest;
    var body := EncodeNat(|ps|) + items;
    SomeProgressLayout(ps, rest);
    DecodeEncodeNat(|ps|, items);
    DecodeEncodeProgressItems(ps, rest);
    DecodeTaggedProgress(body, |ps|, items, ps, rest);
  }

  /** How an encoded list of records sits in front of what follows it. */
  lemma SomeProgressLayout(ps: seq<Progress>, rest: string)
    ensures EncodeOptProgress(Some(ps)) + rest == "1" + (EncodeNat(|ps|) + (EncodeProgressItems(ps) + rest))
  {
    Regroup("1", EncodeNat(|ps|), EncodeProgressItems(ps), rest);
  }

  lemma Regroup(a: string, b: string, c: string, d: string)
    ensures a + b + c + d == a + (b + (c + d))
  {
  }

  /** A '1' tag, a count, and that many records. */
  lemma DecodeTaggedProgress(t: string, k: nat, r: string, ps: seq<Progress>, r': string)
    requires DecodeNat(t) == Some((k, r))
    requires DecodeProgressItems(k, r) == Some((ps, r'))
    ensures DecodeOptProgress("1" + t) == Some((Some(ps), r'))
  {
    assert ("1" + t)[0] == '1' && ("1" + t)[1..] == t;
  }

  // ---------------------------------------------------------------------------
  // Users

  /** `JSON.stringify(user)`. */
  function Stringify(u: User): (r: string)
    ensures r != ""
  {
    assert |EncodeString(u.name)| >= 2;
    EncodeString(u.name) + EncodeString(u.email) + EncodeString(u.token) + EncodeOptProgress(u.progress)
  }

  function DecodeUser(s: string): Option<(User, string)> {
    match DecodeString(s)
    case None => None
    case Some((name, r1)) =>
      match DecodeString(r1)
      case None => None
      case Some((email, r2)) =>
        match DecodeString(r2)
        case None => None
        case Some((token, r3)) =>
          match DecodeOptProgress(r3)
          case None => None
          case Some((progress, r4)) => Some((User(name, email, token, progress), r4))
  }

  /** `JSON.parse(text)`: `None` where the source's parse throws. */
  function Parse(text: string): (r: Option<User>)
    ensures text == "" ==> r.None?
  {
    match DecodeUser(text)
    case Some((u, rest)) => if rest == [] then Some(u) else None
    case None => None
  }

  lemma DecodeStringifiedUser(u: User)
    ensures DecodeUser(Stringify(u)) == Some((u, []))
  {
    var r3 := EncodeOptProgress(u.progress);
    var r2 := EncodeString(u.token) + r3;
    var r1 := EncodeString(u.email) + r2;
    assert Stringify(u) == EncodeString(u.name) + r1;
    DecodeEncodeString(u.name, r1);
    DecodeEncodeString(u.email, r2);
    DecodeEncodeString(u.token, r3);
    assert r3 + [] == r3;
    DecodeEncodeOptProgress(u.progress, []);
  }

  /** A stored user is read back unchanged. */
  lemma ParseStringify(u: User)
    ensures Parse(Stringify(u)) == Some(u)
  {
    DecodeStringifiedUser(u);
  }

  /** Text that does not start with an encoded field is rejected. */
  lemma ParseRejectsGarbage()
    ensures Parse("{") == None
    ensures Parse("") == None
  {
    assert SpanDigits("{", 10) == ([], "{");
  }
}
