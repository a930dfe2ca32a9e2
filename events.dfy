/** The event catalog and event application of events.cpp.

    The catalog file is a sequence of records: a description line, a line with
    three integers (happiness, debt and GPA deltas), and a separator line. The
    source reads it with `getline`, `>>` and `ignore`; here the file's contents
    are a string and those three stream operations are functions on it. A
    catalog the stream would read with its fail bit set is reported as `None`.
    The random choice of a record is the parameter `draw`. */
module EventCatalog {
  import opened PlayerModel

  datatype Option<T> = None | Some(value: T)

  datatype Event = Event(description: string, happinessScore: int, debtScore: int, gpaScore: int)

  const Int32Min: int := -0x8000_0000
  const Int32Max: int := 0x7fff_ffff

  /** The characters `>>` skips before a number (the C locale's white space). */
  predicate IsSpace(c: char) {
    c == ' ' || c == '\t' || c == '\n' || c == '\r' || c == '\U{0B}' || c == '\U{0C}'
  }

  predicate IsDigit(c: char) { '0' <= c <= '9' }

  predicate AllDigits(s: string) { forall i :: 0 <= i < |s| ==> IsDigit(s[i]) }

  /** `getline`: the text before the first newline, and what follows that
      newline (nothing, when there is no newline). */
  function GetLine(s: string): (r: (string, string))
    ensures '\n' !in r.0
    ensures s == r.0 + "\n" + r.1 || (s == r.0 && r.1 == [])
    ensures |r.1| <= |s| && (s != [] ==> |r.1| < |s|)
    decreases |s|
  {
    if s == [] then ([], [])
    else if s[0] == '\n' then ([], s[1..])
    else
      var (line, rest) := GetLine(s[1..]);
      ([s[0]] + line, rest)
  }

  /** `ignore(max, '\n')`: drop everything up to and including the next newline. */
  function SkipLine(s: string): (r: string)
    ensures |r| <= |s| && (s != [] ==> |r| < |s|)
  {
    GetLine(s).1
  }

  /** The white space `>>` skips before a number. */
  function SkipSpaces(s: string): (r: string)
    ensures |r| <= |s|
    ensures r == [] || !IsSpace(r[0])
    decreases |s|
  {
    if s != [] && IsSpace(s[0]) then SkipSpaces(s[1..]) else s
  }

  /** Length of the run of digits at the front of `s`. */
  function DigitPrefix(s: string): (k: nat)
    ensures k <= |s| && AllDigits(s[..k])
    ensures k == |s| || !IsDigit(s[k])
    decreases |s|
  {
    if s != [] && IsDigit(s[0]) then
      var k := 1 + DigitPrefix(s[1..]);
      assert s[..k] == [s[0]] + s[1..][..k - 1];
      k
    else 0
  }

  function DigitValue(c: char): nat
    requires IsDigit(c)
  {
    c as int - '0' as int
  }

  /** The number a run of decimal digits denotes. */
  function DigitsValue(ds: string): nat
    requires AllDigits(ds)
    decreases |ds|
  {
    if ds == [] then 0 else DigitsValue(ds[..|ds| - 1]) * 10 + DigitValue(ds[|ds| - 1])
  }

  /** `>> int`: skip white space, an optional sign, one or more digits. No digit,
      or a value outside 32 bits, sets the fail bit. */
  function ReadInt(s: string): (r: Option<(int, string)>)
    ensures r.Some? ==> Int32Min <= r.value.0 <= Int32Max && |r.value.1| < |s|
  {
    var t := SkipSpaces(s);
    var signed := |t| > 0 && (t[0] == '-' || t[0] == '+');
    var u := if signed then t[1..] else t;
    var k := DigitPrefix(u);
    if k == 0 then None
    else
      var magnitude: int := DigitsValue(u[..k]);
      var v := if signed && t[0] == '-' then -magnitude else magnitude;
      if Int32Min <= v <= Int32Max then Some((v, u[k..])) else None
  }

  /** `readEvent`: the whole first line is the description, the next three
      integers are the happiness, debt and GPA deltas in that order, and the rest
      of the number line is skipped. */
  function ReadEvent(s: string): (r: Option<(Event, string)>)
    ensures r.Some? ==> |r.value.1| < |s| && '\n' !in r.value.0.description
  {
    var (description, afterLine) := GetLine(s);
    match ReadInt(afterLine)
    case None => None
    case Some((h, r1)) =>
      match ReadInt(r1)
      case None => None
      case Some((d, r2)) =>
        match ReadInt(r2)
        case None => None
        case Some((g, r3)) => Some((Event(description, h, d, g), SkipLine(r3)))
  }

  /** The catalog loop: while the stream is not at its end, read a record and
      skip one separator line; records are kept in file order. */
  function ParseCatalog(s: string): (r: Option<seq<Event>>)
    ensures r.Some? ==> (r.value == [] <==> s == [])
    decreases |s|
  {
    if s == [] then Some([])
    else
      match ReadEvent(s)
      case None => None
      case Some((e, rest)) => Prepend([e], ParseCatalog(SkipLine(rest)))
  }

  function Prepend(front: seq<Event>, o: Option<seq<Event>>): Option<seq<Event>> {
    match o
    case None => None
    case Some(es) => Some(front + es)
  }

  lemma PrependTwice(acc: seq<Event>, e: Event, o: Option<seq<Event>>)
    ensures Prepend(acc, Prepend([e], o)) == Prepend(acc + [e], o)
  {
    if o.Some? {
      assert acc + ([e] + o.value) == (acc + [e]) + o.value;
    }
  }

  /** One turn of the loop below keeps its invariant: the records read so far,
      followed by what the rest of the text parses to, are the whole catalog. */
  lemma CatalogLoopStep(text: string, acc: seq<Event>, rest: string)
    requires rest != [] && ParseCatalog(text) == Prepend(acc, ParseCatalog(rest))
    ensures ReadEvent(rest).None? ==> ParseCatalog(text) == None
    ensures ReadEvent(rest).Some? ==>
              ParseCatalog(text) == Prepend(acc + [ReadEvent(rest).value.0],
                                            ParseCatalog(SkipLine(ReadEvent(rest).value.1)))
  {
    if ReadEvent(rest).Some? {
      var (e, after) := ReadEvent(rest).value;
      PrependTwice(acc, e, ParseCatalog(SkipLine(after)));
    }
  }

  /** The loop of `playerEvent` that fills the vector of events. */
  method ReadCatalog(text: string) returns (events: Option<seq<Event>>)
    ensures events == ParseCatalog(text)
  {
    var rest := text;
    var acc: seq<Event> := [];
    if ParseCatalog(text).Some? {
      assert [] + ParseCatalog(text).value == ParseCatalog(text).value;
    }
    while rest != []
      invariant ParseCatalog(text) == Prepend(acc, ParseCatalog(rest))
      decreases |rest|
    {
      CatalogLoopStep(text, acc, rest);
      var r := ReadEvent(rest);
      if r.None? {
        return None;
      }
      acc := acc + [r.value.0];
      rest := SkipLine(r.value.1);
    }
    assert acc + [] == acc;
    return Some(acc);
  }

  // ---------------------------------------------------------------------------
  // The file format, written out: the inverse the parser is checked against.

  function DigitChar(d: nat): (c: char)
    requires d < 10
    ensures IsDigit(c) && DigitValue(c) == d
  {
    ('0' as int + d) as char
  }

  function NatToString(n: nat): string
    decreases n
  {
    if n < 10 then [DigitChar(n)] else NatToString(n / 10) + [DigitChar(n % 10)]
  }

  function IntToString(n: int): string {
    if n < 0 then "-" + NatToString(-n) else NatToString(n)
  }

  /** An event the catalog file can hold: a one-line description and three
      deltas that fit an `int`. */
  predicate WellFormed(e: Event) {
    '\n' !in e.description &&
    Int32Min <= e.happinessScore <= Int32Max &&
    Int32Min <= e.debtScore <= Int32Max &&
    Int32Min <= e.gpaScore <= Int32Max
  }

  /** One record as it appears in the file, with its separator line, written
      in front of `rest`. */
  function WriteEvent(e: Event, rest: string): string {
    e.description + ("\n" +
    (IntToString(e.happinessScore) + (" " + (IntToString(e.debtScore) + (" " +
    (IntToString(e.gpaScore) + ("\n" + ("\n" + rest))))))))
  }

  /** A whole catalog file. */
  function FormatCatalog(es: seq<Event>): string
    decreases |es|
  {
    if es == [] then [] else WriteEvent(es[0], FormatCatalog(es[1..]))
  }

  lemma {:induction false} NatToStringDigits(n: nat)
    ensures NatToString(n) != [] && AllDigits(NatToString(n))
    ensures DigitsValue(NatToString(n)) == n
    decreases n
  {
    if n >= 10 {
      NatToStringDigits(n / 10);
      var a := NatToString(n / 10);
      var s := NatToString(n);
      assert s == a + [DigitChar(n % 10)];
      assert s[..|s| - 1] == a;
    }
  }

  lemma {:induction false} DigitPrefixStops(ds: string, rest: string)
    requires AllDigits(ds)
    requires rest == [] || !IsDigit(rest[0])
    ensures DigitPrefix(ds + rest) == |ds|
    decreases |ds|
  {
    if ds != [] {
      assert (ds + rest)[1..] == ds[1..] + rest;
      DigitPrefixStops(ds[1..], rest);
    }
  }

  lemma {:induction false} GetLineSplits(a: string, b: string)
    requires '\n' !in a
    ensures GetLine(a + "\n" + b) == (a, b)
    decreases |a|
  {
    var s := a + "\n" + b;
    if a == [] {
      assert s == ['\n'] + b;
      assert s[1..] == b;
    } else {
      assert s[0] == a[0] && a[0] != '\n';
      assert s[1..] == a[1..] + "\n" + b;
      GetLineSplits(a[1..], b);
      assert [a[0]] + a[1..] == a;
    }
  }

  /** The digits of a number, followed by a non-digit, read back as that number. */
  lemma ReadDigitsWritten(m: nat, rest: string)
    requires rest == [] || !IsDigit(rest[0])
    ensures var u := NatToString(m) + rest;
            var k := DigitPrefix(u);
            k == |NatToString(m)| > 0 && DigitsValue(u[..k]) == m && u[k..] == rest
  {
    var ds := NatToString(m);
    NatToStringDigits(m);
    DigitPrefixStops(ds, rest);
    var u := ds + rest;
    assert u[..|ds|] == ds && u[|ds|..] == rest;
  }

  /** A non-negative number written by NatToString reads back. */
  lemma ReadNatWritten(m: nat, rest: string)
    requires m <= Int32Max
    requires rest == [] || !IsDigit(rest[0])
    ensures ReadInt(NatToString(m) + rest) == Some((m, rest))
  {
    var u := NatToString(m) + rest;
    ReadDigitsWritten(m, rest);
    assert !IsSpace(u[0]) && u[0] != '-' && u[0] != '+';
    var t := SkipSpaces(u);
    assert t == u;
    var k := DigitPrefix(u);
    assert DigitsValue(u[..k]) == m && u[k..] == rest;
  }

  /** A negative number, a minus sign before its digits, reads back. */
  lemma ReadNegWritten(m: int, rest: string)
    requires 0 < m <= -Int32Min
    requires rest == [] || !IsDigit(rest[0])
    ensures ReadInt("-" + NatToString(m) + rest) == Some((-m, rest))
  {
    var u := NatToString(m) + rest;
    var s := "-" + NatToString(m) + rest;
    ReadDigitsWritten(m, rest);
    assert s == ['-'] + u;
    var t := SkipSpaces(s);
    assert t == s && t[0] == '-';
    assert t[1..] == u;
    var k := DigitPrefix(u);
    assert DigitsValue(u[..k]) == m && u[k..] == rest;
  }

  /** `>>` reads back a number written by IntToString, stopping before the
      next non-digit. */
  lemma ReadIntWritten(n: int, rest: string)
    requires Int32Min <= n <= Int32Max
    requires rest == [] || !IsDigit(rest[0])
    ensures ReadInt(IntToString(n) + rest) == Some((n, rest))
  {
    if n < 0 {
      ReadNegWritten(-n, rest);
    } else {
      ReadNatWritten(n, rest);
    }
  }

  lemma ReadIntSkipsSpace(x: string)
    ensures ReadInt(" " + x) == ReadInt(x)
  {
    assert (" " + x)[1..] == x;
    assert SkipSpaces(" " + x) == SkipSpaces(x);
  }

  /** A number written after a space reads back too. */
  lemma ReadSpacedIntWritten(n: int, rest: string)
    requires Int32Min <= n <= Int32Max
    requires rest == [] || !IsDigit(rest[0])
    ensures ReadInt(" " + (IntToString(n) + rest)) == Some((n, rest))
  {
    ReadIntSkipsSpace(IntToString(n) + rest);
    ReadIntWritten(n, rest);
  }

  /** The separator lines after the last number are skipped one at a time. */
  lemma SkipSeparator(more: string)
    ensures SkipLine("\n" + more) == more
  {
    GetLineSplits([], more);
    assert [] + "\n" + more == "\n" + more;
  }

  /** A written record reads back as the same event, leaving its separator line. */
  lemma ReadEventWritten(e: Event, more: string)
    requires WellFormed(e)
    ensures ReadEvent(WriteEvent(e, more)) == Some((e, "\n" + more))
  {
    var tail := "\n" + ("\n" + more);
    var r2 := " " + (IntToString(e.gpaScore) + tail);
    var r1 := " " + (IntToString(e.debtScore) + r2);
    var afterLine := IntToString(e.happinessScore) + r1;
    GetLineSplits(e.description, afterLine);
    assert e.description + "\n" + afterLine == WriteEvent(e, more);
    ReadIntWritten(e.happinessScore, r1);
    ReadSpacedIntWritten(e.debtScore, r2);
    ReadSpacedIntWritten(e.gpaScore, tail);
    SkipSeparator("\n" + more);
  }

  /** One turn of the catalog loop over a written record. */
  lemma ParseWrittenRecord(e: Event, more: string)
    requires WellFormed(e)
    ensures ParseCatalog(WriteEvent(e, more)) == Prepend([e], ParseCatalog(more))
  {
    ReadEventWritten(e, more);
    SkipSeparator(more);
  }

  /** Round trip: the catalog loop reads a written catalog back record for record. */
  lemma {:induction false} CatalogRoundTrip(es: seq<Event>)
    requires forall e :: e in es ==> WellFormed(e)
    ensures ParseCatalog(FormatCatalog(es)) == Some(es)
    decreases |es|
  {
    if es != [] {
      ParseWrittenRecord(es[0], FormatCatalog(es[1..]));
      CatalogRoundTrip(es[1..]);
      assert [es[0]] + es[1..] == es;
    }
  }

  // ---------------------------------------------------------------------------
  // Applying an event to a player.

  /** What `playerEvent` does to a player, as written: it passes old + delta to
      a setter that itself adds, so each resource becomes 2 * old + delta. */
  function AppliedAsWritten(s: PlayerState, e: Event): (r: PlayerState)
    ensures r == s.(happiness := 2 * s.happiness + e.happinessScore,
                    debt := 2 * s.debt + e.debtScore,
                    gpa := 2 * s.gpa + e.gpaScore)
  {
    s.(happiness := s.happiness + (s.happiness + e.happinessScore),
       debt := s.debt + (s.debt + e.debtScore),
       gpa := s.gpa + (s.gpa + e.gpaScore))
  }

  /** What applying an event is meant to do: add each delta once. */
  function Applied(s: PlayerState, e: Event): (r: PlayerState)
    ensures r.happiness - s.happiness == e.happinessScore
    ensures r.debt - s.debt == e.debtScore
    ensures r.gpa - s.gpa == e.gpaScore
    ensures r == s.(happiness := r.happiness, debt := r.debt, gpa := r.gpa)
  {
    s.(happiness := s.happiness + e.happinessScore,
       debt := s.debt + e.debtScore,
       gpa := s.gpa + e.gpaScore)
  }

  /** The two agree only on a player whose three resources are all zero. */
  lemma AsWrittenDoubles(s: PlayerState, e: Event)
    ensures AppliedAsWritten(s, e) == Applied(s, e) <==> s.happiness == 0 && s.debt == 0 && s.gpa == 0
  {
    if AppliedAsWritten(s, e) == Applied(s, e) {
      assert AppliedAsWritten(s, e).happiness == Applied(s, e).happiness;
      assert AppliedAsWritten(s, e).debt == Applied(s, e).debt;
      assert AppliedAsWritten(s, e).gpa == Applied(s, e).gpa;
    }
  }

  /** As written, the order of two events matters: +1 then +2 happiness from
      zero gives 4, +2 then +1 gives 5. */
  lemma AsWrittenOrderMatters(s: PlayerState)
    requires s.happiness == 0
    ensures var one, two := Event("a", 1, 0, 0), Event("b", 2, 0, 0);
            AppliedAsWritten(AppliedAsWritten(s, one), two).happiness == 4 &&
            AppliedAsWritten(AppliedAsWritten(s, two), one).happiness == 5
  {
  }

  /** Intended application: applying two events is applying their summed
      deltas, in either order. */
  lemma AppliedAdds(s: PlayerState, e1: Event, e2: Event)
    ensures var both := Event(e1.description, e1.happinessScore + e2.happinessScore,
                              e1.debtScore + e2.debtScore, e1.gpaScore + e2.gpaScore);
            Applied(Applied(s, e1), e2) == Applied(s, both) == Applied(Applied(s, e2), e1)
  {
  }

  /** The three setter calls that apply a record to a player, as written. */
  method ApplyEvent(player: Player, e: Event)
    modifies player
    ensures player.State() == AppliedAsWritten(old(player.State()), e)
  {
    player.SetHappiness(player.GetHappiness() + e.happinessScore);
    player.SetDebt(player.GetDebt() + e.debtScore);
    player.SetGPA(player.GetGPA() + e.gpaScore);
  }

  /** `playerEvent` without its popup: read the catalog, take the record the
      random draw picked, and apply it with the additive setters. The source
      indexes the vector with a draw from [0, size - 1]; an empty catalog makes
      that range wrap, so the catalog must be non-empty. */
  method PlayerEvent(player: Player, eventsText: string, draw: nat) returns (selected: Event)
    requires ParseCatalog(eventsText).Some? && |ParseCatalog(eventsText).value| > 0
    requires draw < |ParseCatalog(eventsText).value|
    modifies player
    ensures selected == ParseCatalog(eventsText).value[draw]
    ensures player.State() == AppliedAsWritten(old(player.State()), selected)
  {
    var events := ReadCatalog(eventsText);
    selected := events.value[draw];
    ApplyEvent(player, selected);
  }
}
