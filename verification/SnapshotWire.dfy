/** The scalars of an effect snapshot: how Python writes them and how the hand-written reader reads them. */
module SnapshotWire {
  import opened Wrappers
  import opened Text
  import opened PyText
  import opened Json

  /** A value on the right of a colon. */
  datatype Wire = List(members: seq<string>) | Flag(on: bool) | Words(text: string) | Number(n: int)

  /** `str.rstrip(":")`. */
  function DropColons(s: string): string {
    if s != [] && s[|s| - 1] == ':' then DropColons(s[..|s| - 1]) else s
  }

  /** `str.partition(":")` without its middle part. */
  function Partition(s: string): (string, string) {
    if s == [] then ([], [])
    else if s[0] == ':' then ([], s[1..])
    else
      var p := Partition(s[1..]);
      ([s[0]] + p.0, p.1)
  }

  lemma {:induction false} PartitionAt(name: string, rest: string)
    requires ':' !in name
    ensures Partition(name + (":" + rest)) == (name, rest)
  {
    var s := name + (":" + rest);
    if name == [] {
      assert s[0] == ':' && s[1..] == rest;
    } else {
      assert s[1..] == name[1..] + (":" + rest);
      PartitionAt(name[1..], rest);
      assert name == [name[0]] + name[1..];
    }
  }

  /** `s` is not empty and has no white space at either end. */
  predicate Solid(s: string) {
    s != [] && Firm(s)
  }

  lemma StripOne(s: string)
    requires Solid(s)
    ensures PyStrip(s) == s && PyStrip(" " + s) == s
  {
    assert (" " + s)[0] == ' ' && (" " + s)[1..] == s;
  }

  // ---- integers -------------------------------------------------------------------------

  function ShowInt(n: int): string {
    if n < 0 then "-" + Decimal(-n) else Decimal(n)
  }

  /** Digits with single underscores between them. */
  function ReadDigits(s: string): Option<int> {
    if s == [] || !IsDigit(s[|s| - 1]) then None
    else
      var last := s[|s| - 1] as int - '0' as int;
      var init := s[..|s| - 1];
      if init == [] then Some(last)
      else
        match ReadDigits(if init[|init| - 1] == '_' then init[..|init| - 1] else init)
        case None => None
        case Some(n) => Some(10 * n + last)
  }

  /** `int(text)` on ASCII text. */
  function ReadInt(text: string): Option<int> {
    var s := PyStrip(text);
    if s != [] && (s[0] == '-' || s[0] == '+') then
      match ReadDigits(s[1..])
      case None => None
      case Some(n) => Some(if s[0] == '-' then -n else n)
    else ReadDigits(s)
  }

  lemma {:induction false} DigitsRead(n: nat)
    ensures ReadDigits(Decimal(n)) == Some(n)
    ensures IsDigit(Decimal(n)[0]) && IsDigit(Decimal(n)[|Decimal(n)| - 1])
    decreases n
  {
    hide Decimal;
    var last := DecimalParts(n);
    if n >= 10 {
      DigitsRead(n / 10);
    }
  }

  lemma IntReads(n: int)
    ensures ReadInt(ShowInt(n)) == Some(n) && Solid(ShowInt(n))
    ensures var c := ShowInt(n)[0]; c == '-' || IsDigit(c)
    ensures '\n' !in ShowInt(n)
  {
    hide Decimal;
    var d := Decimal(if n < 0 then -n else n);
    DigitsRead(if n < 0 then -n else n);
    DecimalFeeds(if n < 0 then -n else n);
    assert Solid(d) && '\n' !in d;
    if n < 0 {
      SignSolid(d);
    }
    StripSolid(ShowInt(n));
  }

  lemma SignSolid(d: string)
    requires Solid(d) && '\n' !in d
    ensures Solid("-" + d) && ("-" + d)[0] == '-' && ("-" + d)[1..] == d && '\n' !in "-" + d
  {
    assert ("-" + d)[|d|] == d[|d| - 1];
  }

  lemma StripSolid(s: string)
    requires Solid(s)
    ensures PyStrip(s) == s
  {
  }

  lemma {:induction false} DecimalFeeds(n: nat)
    ensures '\n' !in Decimal(n)
    decreases n
  {
    if n >= 10 {
      DecimalFeeds(n / 10);
    }
    assert "0123456789"[n % 10] != '\n';
  }

  // ---- values ---------------------------------------------------------------------------

  function ShowFlag(b: bool): string {
    if b then "true" else "false"
  }

  /** How the writer spells a value. */
  function ShowWire(w: Wire): string {
    match w
    case List(xs) => DumpArray(xs)
    case Flag(b) => ShowFlag(b)
    case Words(s) => Dump(s)
    case Number(n) => ShowInt(n)
  }

  /** How the reader takes a stripped value; `None` is the exception its parsers raise. */
  function ReadWire(text: string): Option<Wire> {
    if text != [] && text[0] == '[' then
      (match LoadArray(text) case None => None case Some(xs) => Some(List(xs)))
    else if text == "true" || text == "false" then Some(Flag(text == "true"))
    else if text != [] && text[0] == '"' then
      (match LoadString(text) case None => None case Some(s) => Some(Words(s)))
    else
      (match ReadInt(text) case None => None case Some(n) => Some(Number(n)))
  }

  /** Every value reads back as itself, and its spelling stays on one line. */
  lemma WireReads(w: Wire)
    ensures ReadWire(ShowWire(w)) == Some(w)
    ensures Solid(ShowWire(w)) && '\n' !in ShowWire(w)
  {
    hide LoadString, LoadArray, ReadInt, JoinDumps, EscapeText, ShowInt;
    match w
    case List(xs) =>
      LoadOfDumpArray(xs);
      JoinFeeds(xs);
    case Flag(b) =>
    case Words(s) =>
      LoadOfDump(s);
      EscapeFeeds(s);
    case Number(n) =>
      IntReads(n);
  }
}
