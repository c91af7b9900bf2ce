/** Agent Native Format documents, and how their numbers and durations print
    (pkg/anf/types.go). */
module Anf {
  import opened Text

  datatype Header = Header(key: string, value: string)

  datatype Property = Property(key: string, value: string)

  /** An empty status is no status. */
  datatype Entity = Entity(
    kind: string,
    name: string,
    status: string,
    inline: seq<Property>,
    props: seq<Property>,
    children: seq<Entity>)

  datatype Alert = Alert(severity: string, kind: string, name: string, message: string, props: map<string, string>)

  datatype Action = Action(verb: string, kind: string, name: string, params: map<string, string>)

  datatype Document = Document(headers: seq<Header>, entities: seq<Entity>, alerts: seq<Alert>, actions: seq<Action>)

  // ----- Numbers and durations -----

  function Power10(k: nat): nat { if k == 0 then 1 else 10 * Power10(k - 1) }

  /** Negation of a 64-bit integer wraps at the least one. */
  function Negate64(n: int): int { if n == MIN64 then n else -n }

  lemma BelowTenTo19()
    ensures MAX64 < Power10(19)
  {
    assert Power10(10) == 10_000_000_000;
    assert Power10(19) == 1_000_000_000 * Power10(10);
  }

  /** The digits still to be written when n is what remains. */
  function Remaining(n: int): string { if n <= 0 then "" else Digits(n) }

  lemma RemainingStep(n: nat, k: nat)
    requires 0 < n < Power10(k)
    ensures k >= 1 && n / 10 < Power10(k - 1)
    ensures Remaining(n) == Remaining(n / 10) + [Digit(n % 10)]
  {
  }

  /** Fills a 20-byte buffer from the right; every write is in bounds. It prints every
      64-bit integer in decimal but the least, of which only the sign remains. */
  method Itoa(n0: int) returns (s: string)
    requires MIN64 <= n0 <= MAX64
    ensures s == if n0 == MIN64 then "-" else Decimal(n0)
  {
    var n := n0;
    if n == 0 {
      return "0";
    }
    var buf := new char[20];
    var pos := 20;
    var neg := n < 0;
    if neg {
      n := Negate64(n);
    }
    BelowTenTo19();
    pos := WriteDigits(buf, n);
    if neg {
      pos := pos - 1;
      Put(buf, pos, '-');
    }
    return buf[pos..];
  }

  /** The loop over the digits; room for a sign is always left. */
  method WriteDigits(buf: array<char>, n0: int) returns (pos: nat)
    requires buf.Length == 20 && n0 < Power10(19)
    modifies buf
    ensures 1 <= pos <= 20 && buf[pos..] == Remaining(n0)
  {
    var n := n0;
    pos := 20;
    assert Remaining(n0) + [] == Remaining(n0);
    while n > 0
      invariant 1 <= pos <= 20 && (n <= 0 || n < Power10(pos - 1))
      invariant Remaining(n) + buf[pos..] == Remaining(n0)
    {
      RemainingStep(n, pos - 1);
      Reassociate(Remaining(n / 10), Digit(n % 10), buf[pos..]);
      pos := pos - 1;
      Put(buf, pos, Digit(n % 10));
      n := n / 10;
    }
  }

  method Put(buf: array<char>, pos: nat, c: char)
    requires pos < buf.Length
    modifies buf
    ensures buf[pos..] == [c] + old(buf[pos + 1..])
  {
    buf[pos] := c;
    assert buf[pos..] == [c] + buf[pos + 1..];
  }

  lemma Reassociate(a: string, c: char, b: string)
    ensures (a + [c]) + b == a + ([c] + b)
  {
  }

  // ----- Durations -----

  function UnitSeconds(unit: char): int {
    match unit case 'd' => 86400 case 'h' => 3600 case 'm' => 60 case _ => 1
  }

  /** The unit a duration prints in. */
  function UnitOf(seconds: int): char {
    if seconds >= 86400 && seconds % 86400 == 0 then 'd'
    else if seconds >= 3600 && seconds % 3600 == 0 then 'h'
    else if seconds >= 60 && seconds % 60 == 0 then 'm'
    else 's'
  }

  function FormatDuration(seconds: int): string {
    Decimal(seconds / UnitSeconds(UnitOf(seconds))) + [UnitOf(seconds)]
  }

  /** The largest unit that divides the seconds, and how many of it; the least 64-bit
      integer loses its digits. */
  method PrintDuration(seconds: int) returns (s: string)
    requires MIN64 <= seconds <= MAX64
    ensures s == if seconds == MIN64 then "-s" else FormatDuration(seconds)
  {
    var unit := UnitOf(seconds);
    s := Itoa(seconds / UnitSeconds(unit));
    s := s + [unit];
  }

  /** A day is 24 hours of 60 minutes of 60 seconds. */
  lemma DaysAreTheirs(n: int)
    requires n > 0
    ensures FormatDuration(24 * 60 * 60 * n) == Decimal(n) + "d"
  {
    var t := 24 * 60 * 60 * n;
    assert t == 86400 * n && t / 86400 == n && t % 86400 == 0;
  }

  lemma HoursAreTheirs(n: int)
    requires n > 0 && n % 24 != 0
    ensures FormatDuration(60 * 60 * n) == Decimal(n) + "h"
  {
    var t := 60 * 60 * n;
    assert t == 3600 * n && t / 3600 == n && t % 3600 == 0;
    assert t % 86400 == 3600 * (n % 24);
  }

  lemma MinutesAreTheirs(n: int)
    requires n > 0 && n % 60 != 0
    ensures FormatDuration(60 * n) == Decimal(n) + "m"
  {
    var t := 60 * n;
    assert t / 60 == n && t % 60 == 0;
    assert t % 3600 == 60 * (n % 60);
  }

  lemma NotWhole(n: int, count: int, minutes: int)
    requires n % 60 != 0
    ensures n != 60 * minutes * count
  {
    assert (60 * minutes * count) == 60 * (minutes * count);
  }

  lemma SecondsAreTheirs(n: int)
    requires n > 0 && n % 60 != 0
    ensures FormatDuration(n) == Decimal(n) + "s"
  {
    NotWhole(n, n / 3600, 60);
    NotWhole(n, n / 86400, 1440);
  }

  /** Reads a number and a unit. */
  function ReadDuration(s: string): int
    requires |s| >= 2 && (s[0] == '-' || '0' <= s[0] <= '9')
    requires forall i :: 1 <= i < |s| - 1 ==> '0' <= s[i] <= '9'
  {
    DecimalValue(s[..|s| - 1]) * UnitSeconds(s[|s| - 1])
  }

  lemma DurationReadsBack(seconds: int)
    ensures var s := FormatDuration(seconds);
      && |s| >= 2 && (s[0] == '-' || '0' <= s[0] <= '9')
      && (forall i :: 1 <= i < |s| - 1 ==> '0' <= s[i] <= '9')
      && ReadDuration(s) == seconds
  {
    var s, n := FormatDuration(seconds), seconds / UnitSeconds(UnitOf(seconds));
    DecimalDenotes(n);
    assert s[..|s| - 1] == Decimal(n) && s[|s| - 1] == UnitOf(seconds);
  }

  /** No larger unit divides a positive duration. */
  lemma LargestUnit(seconds: int, unit: char)
    requires seconds > 0 && unit in ['d', 'h', 'm', 's'] && seconds % UnitSeconds(unit) == 0
    ensures UnitSeconds(unit) <= UnitSeconds(FormatDuration(seconds)[|FormatDuration(seconds)| - 1])
  {
  }
}
