/**
 * The end-of-run report of `GetSummary` (internal/manager/manager.go): six
 * counters rendered with `%d` into a fixed template. The parser is the
 * report's inverse; the round-trip lemma shows every counter can be read back.
 */
module SummaryFormat {
  import opened Wrappers

  /** The six counters the report shows. */
  datatype Stats = Stats(total: nat, vip: nat, normal: nat, completed: nat, activeBots: nat, pending: nat)

  const P0: string := "\nFinal Status:\n- Total Orders Processed: "
  const P1: string := " ("
  const P2: string := " VIP, "
  const P3: string := " Normal)\n- Orders Completed: "
  const P4: string := "\n- Active Bots: "
  const P5: string := "\n- Pending Orders: "

  predicate IsDigit(c: char) {
    '0' <= c <= '9'
  }

  predicate AllDigits(s: string) {
    forall i :: 0 <= i < |s| ==> IsDigit(s[i])
  }

  function DigitChar(d: nat): (c: char)
    requires d < 10
    ensures IsDigit(c)
  {
    (('0' as int) + d) as char
  }

  /** The `%d` rendering of a non-negative number: digits, no leading zero. */
  function Decimal(n: nat): (r: string)
    ensures |r| >= 1 && AllDigits(r)
    ensures r[0] == '0' <==> n == 0
    ensures n < 10 <==> |r| == 1
  {
    if n < 10 then [DigitChar(n)]
    else Decimal(n / 10) + [DigitChar(n % 10)]
  }

  /** The number a digit string denotes, most significant digit first. */
  function ValueOf(ds: string): nat
    requires AllDigits(ds)
  {
    if ds == [] then 0
    else ValueOf(ds[..|ds| - 1]) * 10 + ((ds[|ds| - 1] as int) - ('0' as int))
  }

  /** Reading a rendered number gives the number back. */
  lemma {:induction false} DecimalValue(n: nat)
    ensures ValueOf(Decimal(n)) == n
    decreases n
  {
    if n >= 10 {
      var d := Decimal(n);
      assert d[..|d| - 1] == Decimal(n / 10);
      DecimalValue(n / 10);
    }
  }

  /** Length of the run of digits at the front of `s`. */
  function DigitRun(s: string): (k: nat)
    ensures k <= |s| && AllDigits(s[..k])
    ensures k == |s| || !IsDigit(s[k])
  {
    if s == [] || !IsDigit(s[0]) then 0
    else
      var k := 1 + DigitRun(s[1..]);
      assert s[..k] == [s[0]] + s[1..][..k - 1];
      k
  }

  /** A digit string followed by a non-digit (or nothing) is read as one run. */
  lemma {:induction false} DigitRunOf(ds: string, rest: string)
    requires AllDigits(ds) && (rest == [] || !IsDigit(rest[0]))
    ensures DigitRun(ds + rest) == |ds|
    decreases |ds|
  {
    if ds != [] {
      assert (ds + rest)[1..] == ds[1..] + rest;
      DigitRunOf(ds[1..], rest);
    }
  }

  /** Reads a non-empty run of digits: the number and what follows it. */
  function ReadNat(s: string): (r: Option<(nat, string)>)
    ensures r.Some? ==> |r.value.1| < |s| && r.value.1 == s[|s| - |r.value.1|..]
  {
    var k := DigitRun(s);
    if k == 0 then None else Some((ValueOf(s[..k]), s[k..]))
  }

  /** Reads a literal and then a number. */
  function Field(lit: string, s: string): Option<(nat, string)> {
    if lit <= s then ReadNat(s[|lit|..]) else None
  }

  /** The template's literal pieces; a number goes after each. */
  const Template: seq<string> := [P0, P1, P2, P3, P4, P5]

  /** The counters in the order the template shows them. */
  function Fields(st: Stats): (vs: seq<nat>)
    ensures |vs| == |Template|
  {
    [st.total, st.vip, st.normal, st.completed, st.activeBots, st.pending]
  }

  /** Each literal followed by its rendered number, like `Sprintf` with one `%d` after each literal. */
  function Render(lits: seq<string>, vals: seq<nat>): string
    requires |lits| == |vals|
  {
    if lits == [] then [] else lits[0] + (Decimal(vals[0]) + Render(lits[1..], vals[1..]))
  }

  /** Reads one number after each literal; the text must end after the last number. */
  function ParseFields(lits: seq<string>, s: string): Option<seq<nat>> {
    if lits == [] then (if s == [] then Some([]) else None)
    else match Field(lits[0], s)
      case None => None
      case Some((v, rest)) =>
        match ParseFields(lits[1..], rest)
        case None => None
        case Some(vs) => Some([v] + vs)
  }

  /** Every literal after the first starts with a non-digit, so a number cannot run into the next literal. */
  predicate Separated(lits: seq<string>) {
    |lits| <= 1 || (|lits[1]| > 0 && !IsDigit(lits[1][0]) && Separated(lits[1..]))
  }

  /** A rendering over separated literals parses back to its numbers. */
  lemma {:induction false} RenderParses(lits: seq<string>, vals: seq<nat>)
    requires |lits| == |vals| && Separated(lits)
    ensures ParseFields(lits, Render(lits, vals)) == Some(vals)
    decreases |lits|
  {
    if lits != [] {
      var rest := Render(lits[1..], vals[1..]);
      StartsSeparated(lits[1..], vals[1..]);
      ReadField(lits[0], vals[0], rest);
      assert Field(lits[0], Render(lits, vals)) == Some((vals[0], rest));
      RenderParses(lits[1..], vals[1..]);
      assert [vals[0]] + vals[1..] == vals;
    }
  }

  /** A rendering whose first literal starts with a non-digit is empty or starts with a non-digit. */
  lemma {:induction false} StartsSeparated(lits: seq<string>, vals: seq<nat>)
    requires |lits| == |vals| && (lits == [] || (|lits[0]| > 0 && !IsDigit(lits[0][0])))
    ensures Render(lits, vals) == [] || !IsDigit(Render(lits, vals)[0])
  {
    if lits != [] {
      var r := Render(lits, vals);
      assert r[0] == lits[0][0];
    }
  }

  /** The report text for the given counters. */
  function Summary(st: Stats): string {
    Render(Template, Fields(st))
  }

  /** Recovers the six counters from a report; None for text not in the template. */
  function ParseSummary(s: string): Option<Stats> {
    match ParseFields(Template, s)
    case None => None
    case Some(vs) =>
      if |vs| == 6 then Some(Stats(vs[0], vs[1], vs[2], vs[3], vs[4], vs[5])) else None
  }

  /** A literal, a rendered number and a tail not starting with a digit read back as that number. */
  lemma {:induction false} ReadField(lit: string, n: nat, rest: string)
    requires rest == [] || !IsDigit(rest[0])
    ensures Field(lit, lit + (Decimal(n) + rest)) == Some((n, rest))
  {
    var s := lit + (Decimal(n) + rest);
    assert lit <= s;
    assert s[|lit|..] == Decimal(n) + rest;
    DigitRunOf(Decimal(n), rest);
    assert (Decimal(n) + rest)[..|Decimal(n)|] == Decimal(n);
    assert (Decimal(n) + rest)[|Decimal(n)|..] == rest;
    DecimalValue(n);
  }

  /** Every report parses back to exactly the counters it was made from. */
  lemma {:induction false} SummaryRoundTrip(st: Stats)
    ensures ParseSummary(Summary(st)) == Some(st)
  {
    assert Separated(Template) by {
      assert Separated(Template[5..]);
      assert Separated(Template[4..]) by { assert Template[4..][1] == P5 && P5[0] == '\n'; }
      assert Separated(Template[3..]) by { assert Template[3..][1] == P4 && P4[0] == '\n'; }
      assert Separated(Template[2..]) by { assert Template[2..][1] == P3 && P3[0] == ' '; }
      assert Separated(Template[1..]) by { assert Template[1..][1] == P2 && P2[0] == ' '; }
      assert Template[1] == P1 && P1[0] == ' ';
    }
    RenderParses(Template, Fields(st));
  }

  /** Different counters give different reports. */
  lemma {:induction false} SummaryInjective(a: Stats, b: Stats)
    requires Summary(a) == Summary(b)
    ensures a == b
  {
    SummaryRoundTrip(a);
    SummaryRoundTrip(b);
  }
}
