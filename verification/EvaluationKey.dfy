/**
 * The content key of a decision: the snapshot of facts as JSON text, then the two version ids.
 * SHA-256 is taken to be injective, so a key is its own input text.
 */
module EvaluationKey {
  import opened Common
  import opened Json

  /** A UUID has 128 bits. */
  const UUID_LIMIT: nat := 0x1_0000_0000_0000_0000_0000_0000_0000_0000

  type Bits = n: nat | n < UUID_LIMIT

  datatype Uuid = Uuid(bits: Bits)

  function HexDigit(d: nat): char
    requires d < 16
  {
    "0123456789abcdef"[d]
  }

  /** The last hexadecimal digits of a number, padded with zeros in front. */
  function Hex(n: nat, width: nat): (h: string)
    ensures |h| == width
  {
    if width == 0 then "" else Hex(n / 16, width - 1) + [HexDigit(n % 16)]
  }

  /** Five groups of digits. */
  function Grouped(h: string): (s: string)
    requires |h| == 32
    ensures |s| == 36
  {
    h[..8] + ("-" + (h[8..12] + ("-" + (h[12..16] + ("-" + (h[16..20] + ("-" + h[20..])))))))
  }

  /** str(uuid) */
  function UuidText(id: Uuid): (s: string)
    ensures |s| == 36
  {
    Grouped(Hex(id.bits, 32))
  }

  /** A grade point average with the six decimals its column keeps. */
  datatype Cgpa = Cgpa(whole: nat, micros: Micros)

  type Micros = m: nat | m < 1_000_000

  /** The facts of a student that a snapshot records. */
  datatype Facts = Facts(student: Uuid, opportunity: Uuid, cgpa: Option<Cgpa>, backlogs: nat, offers: nat)

  function CgpaValue(c: Option<Cgpa>): Json {
    match c
    case None => Null
    case Some(c) => Num(c.whole as real + c.micros as real / 1_000_000.0)
  }

  function Snapshot(f: Facts): Dict {
    map[
      "student_id" := Str(UuidText(f.student)),
      "opportunity_id" := Str(UuidText(f.opportunity)),
      "academic" := Obj(map["cgpa" := CgpaValue(f.cgpa), "backlogs" := Num(f.backlogs as real)]),
      "placement_history" := Obj(map["active_offer_count" := Num(f.offers as real)])
    ]
  }

  // ---------- json.dumps(snapshot, sort_keys=True) ----------

  function Digit(d: nat): char
    requires d < 10
  {
    "0123456789"[d]
  }

  function Decimal(n: nat): string {
    if n < 10 then [Digit(n)] else Decimal(n / 10) + [Digit(n % 10)]
  }

  /** The last digits of a number, padded with zeros in front. */
  function Padded(m: nat, width: nat): string {
    if width == 0 then "" else Padded(m / 10, width - 1) + [Digit(m % 10)]
  }

  /** The fraction of a float is printed without trailing zeros, but with one digit at least. */
  function DropZeros(digits: string): string {
    if |digits| > 1 && digits[|digits| - 1] == '0' then DropZeros(digits[..|digits| - 1]) else digits
  }

  function CgpaText(c: Option<Cgpa>): string {
    match c
    case None => "null"
    case Some(c) => Decimal(c.whole) + ("." + DropZeros(Padded(c.micros, 6)))
  }

  function DumpsFromCgpa(f: Facts): string {
    CgpaText(f.cgpa) + ("}, \"opportunity_id\": \"" + (UuidText(f.opportunity) +
    ("\", \"placement_history\": {\"active_offer_count\": " + (Decimal(f.offers) +
    ("}, \"student_id\": \"" + (UuidText(f.student) + "\"}"))))))
  }

  function Dumps(f: Facts): string {
    "{\"academic\": {\"backlogs\": " + (Decimal(f.backlogs) + (", \"cgpa\": " + DumpsFromCgpa(f)))
  }

  function KeyInput(f: Facts, policy: Uuid, requirement: Uuid): string {
    Dumps(f) + ("|" + (UuidText(policy) + ("|" + (UuidText(requirement) + "|v1.0"))))
  }

  // ---------- injectivity ----------

  predicate IsDigit(c: char) {
    '0' <= c <= '9'
  }

  predicate AllDigits(s: string) {
    forall i | 0 <= i < |s| :: IsDigit(s[i])
  }

  predicate NoDigitFirst(s: string) {
    s != "" ==> !IsDigit(s[0])
  }

  /** Equal texts have equal tails behind heads of one length. */
  lemma CutHead(a: string, b: string, x: string, y: string)
    requires |a| == |b| && a + x == b + y
    ensures a == b && x == y
  {
    assert (a + x)[..|a|] == a && (b + y)[..|b|] == b;
    assert (a + x)[|a|..] == x && (b + y)[|b|..] == y;
  }

  function PowerOfSixteen(width: nat): nat {
    if width == 0 then 1 else 16 * PowerOfSixteen(width - 1)
  }

  lemma {:induction false} HexInjective(m: nat, n: nat, width: nat)
    requires m < PowerOfSixteen(width) && n < PowerOfSixteen(width) && Hex(m, width) == Hex(n, width)
    ensures m == n
  {
    if width > 0 {
      CutHead(Hex(m / 16, width - 1), Hex(n / 16, width - 1), [HexDigit(m % 16)], [HexDigit(n % 16)]);
      HexInjective(m / 16, n / 16, width - 1);
      assert [HexDigit(m % 16)][0] == [HexDigit(n % 16)][0];
    }
  }

  lemma Regroup(g: string, h: string, i: nat, j: nat)
    requires i <= j <= |g| == |h| && g[i..j] == h[i..j] && g[j..] == h[j..]
    ensures g[i..] == h[i..]
  {
    assert g[i..] == g[i..j] + g[j..] && h[i..] == h[i..j] + h[j..];
  }

  lemma GroupedInjective(g: string, h: string)
    requires |g| == |h| == 32 && Grouped(g) == Grouped(h)
    ensures g == h
  {
    var x3, y3 := g[16..20] + ("-" + g[20..]), h[16..20] + ("-" + h[20..]);
    var x2, y2 := g[12..16] + ("-" + x3), h[12..16] + ("-" + y3);
    var x1, y1 := g[8..12] + ("-" + x2), h[8..12] + ("-" + y2);
    CutHead(g[..8], h[..8], "-" + x1, "-" + y1);
    CutHead("-", "-", x1, y1);
    CutHead(g[8..12], h[8..12], "-" + x2, "-" + y2);
    CutHead("-", "-", x2, y2);
    CutHead(g[12..16], h[12..16], "-" + x3, "-" + y3);
    CutHead("-", "-", x3, y3);
    CutHead(g[16..20], h[16..20], "-" + g[20..], "-" + h[20..]);
    CutHead("-", "-", g[20..], h[20..]);
    Regroup(g, h, 16, 20);
    Regroup(g, h, 12, 16);
    Regroup(g, h, 8, 12);
    assert g == g[..8] + g[8..] && h == h[..8] + h[8..];
  }

  lemma UuidTextInjective(id: Uuid, other: Uuid)
    requires UuidText(id) == UuidText(other)
    ensures id == other
  {
    GroupedInjective(Hex(id.bits, 32), Hex(other.bits, 32));
    PowerOfThirtyTwo();
    HexInjective(id.bits, other.bits, 32);
  }

  lemma PowerOfThirtyTwo()
    ensures PowerOfSixteen(32) == UUID_LIMIT
  {
    assert PowerOfSixteen(8) == 0x1_0000_0000;
    assert PowerOfSixteen(16) == 0x1_0000_0000_0000_0000;
    assert PowerOfSixteen(24) == 0x1_0000_0000_0000_0000_0000_0000;
  }

  /** The digits in front of a text that goes on with something else can be told apart from it. */
  lemma CutDigits(a: string, b: string, x: string, y: string)
    requires AllDigits(a) && AllDigits(b) && NoDigitFirst(x) && NoDigitFirst(y)
    requires a + x == b + y
    ensures a == b && x == y
  {
    var t := a + x;
    assert forall i | 0 <= i < |a| :: t[i] == a[i];
    assert forall i | 0 <= i < |b| :: t[i] == b[i];
    assert |a| < |t| ==> t[|a|] == x[0];
    assert |b| < |t| ==> t[|b|] == y[0];
    CutHead(a, b, x, y);
  }

  lemma {:induction false} DecimalIsDigits(n: nat)
    ensures AllDigits(Decimal(n)) && Decimal(n) != ""
  {
    if n >= 10 {
      DecimalIsDigits(n / 10);
    }
  }

  lemma LastDigit(n: nat, m: nat)
    requires n >= 10 && m >= 10 && Decimal(n) == Decimal(m)
    ensures Decimal(n / 10) == Decimal(m / 10) && n % 10 == m % 10
  {
    var a, b := Decimal(n / 10), Decimal(m / 10);
    assert |Decimal(n)| == |a| + 1 && |Decimal(m)| == |b| + 1;
    CutHead(a, b, [Digit(n % 10)], [Digit(m % 10)]);
    assert [Digit(n % 10)][0] == [Digit(m % 10)][0];
  }

  lemma {:induction false} DecimalInjective(n: nat, m: nat)
    requires Decimal(n) == Decimal(m)
    ensures n == m
  {
    if n >= 10 && m >= 10 {
      LastDigit(n, m);
      DecimalInjective(n / 10, m / 10);
    } else {
      DecimalIsDigits(n / 10);
      DecimalIsDigits(m / 10);
      assert Decimal(n)[0] == Decimal(m)[0];
    }
  }

  function PowerOfTen(width: nat): nat {
    if width == 0 then 1 else 10 * PowerOfTen(width - 1)
  }

  lemma {:induction false} PaddedInjective(m: nat, n: nat, width: nat)
    requires m < PowerOfTen(width) && n < PowerOfTen(width)
    requires Padded(m, width) == Padded(n, width)
    ensures m == n
  {
    if width > 0 {
      PaddedIsDigits(m / 10, width - 1);
      PaddedIsDigits(n / 10, width - 1);
      CutHead(Padded(m / 10, width - 1), Padded(n / 10, width - 1), [Digit(m % 10)], [Digit(n % 10)]);
      PaddedInjective(m / 10, n / 10, width - 1);
      assert [Digit(m % 10)][0] == [Digit(n % 10)][0];
    }
  }

  lemma {:induction false} PaddedIsDigits(m: nat, width: nat)
    ensures |Padded(m, width)| == width && AllDigits(Padded(m, width))
  {
    if width > 0 {
      PaddedIsDigits(m / 10, width - 1);
    }
  }

  function PadZeros(digits: string, width: nat): string
    decreases width - |digits|
  {
    if |digits| >= width then digits else PadZeros(digits + "0", width)
  }

  /** Dropped zeros can be put back. */
  lemma {:induction false} PadDropped(digits: string, width: nat)
    requires |digits| <= width
    ensures PadZeros(DropZeros(digits), width) == PadZeros(digits, width)
    ensures AllDigits(digits) ==> AllDigits(DropZeros(digits))
  {
    if |digits| > 1 && digits[|digits| - 1] == '0' {
      PadDropped(digits[..|digits| - 1], width);
      assert digits[..|digits| - 1] + "0" == digits;
    }
  }

  lemma FractionInjective(m: Micros, n: Micros)
    requires DropZeros(Padded(m, 6)) == DropZeros(Padded(n, 6))
    ensures m == n
  {
    PaddedIsDigits(m, 6);
    PaddedIsDigits(n, 6);
    PadDropped(Padded(m, 6), 6);
    PadDropped(Padded(n, 6), 6);
    assert PowerOfTen(3) == 1_000 && PowerOfTen(6) == 1_000_000;
    PaddedInjective(m, n, 6);
  }

  lemma CgpaTextStart(c: Option<Cgpa>, x: string)
    ensures CgpaText(c) != "" && (CgpaText(c) + x)[0] == CgpaText(c)[0]
    ensures IsDigit(CgpaText(c)[0]) <==> c.Some?
  {
    if c.Some? {
      DecimalIsDigits(c.value.whole);
    }
  }

  lemma CgpaTextSplit(c: Cgpa, x: string)
    ensures CgpaText(Some(c)) + x == Decimal(c.whole) + ("." + (DropZeros(Padded(c.micros, 6)) + x))
  {
  }

  /** A grade point average can be read back from the text that begins with it. */
  lemma CgpaTextInjective(c: Option<Cgpa>, d: Option<Cgpa>, x: string, y: string)
    requires x != "" && y != "" && x[0] == y[0] == '}'
    requires CgpaText(c) + x == CgpaText(d) + y
    ensures c == d && x == y
  {
    CgpaTextStart(c, x);
    CgpaTextStart(d, y);
    if c.None? {
      CutHead("null", "null", x, y);
    } else {
      CgpaTextSplit(c.value, x);
      CgpaTextSplit(d.value, y);
      var cf, df := DropZeros(Padded(c.value.micros, 6)), DropZeros(Padded(d.value.micros, 6));
      DecimalIsDigits(c.value.whole);
      DecimalIsDigits(d.value.whole);
      CutDigits(Decimal(c.value.whole), Decimal(d.value.whole), "." + (cf + x), "." + (df + y));
      DecimalInjective(c.value.whole, d.value.whole);
      CutHead(".", ".", cf + x, df + y);
      CgpaFractionInjective(c.value.micros, d.value.micros, x, y);
    }
  }

  lemma CgpaFractionInjective(m: Micros, n: Micros, x: string, y: string)
    requires x != "" && y != "" && x[0] == y[0] == '}'
    requires DropZeros(Padded(m, 6)) + x == DropZeros(Padded(n, 6)) + y
    ensures m == n && x == y
  {
    PaddedIsDigits(m, 6);
    PaddedIsDigits(n, 6);
    PadDropped(Padded(m, 6), 6);
    PadDropped(Padded(n, 6), 6);
    CutDigits(DropZeros(Padded(m, 6)), DropZeros(Padded(n, 6)), x, y);
    FractionInjective(m, n);
  }

  lemma DumpsFromCgpaInjective(f: Facts, g: Facts)
    requires DumpsFromCgpa(f) == DumpsFromCgpa(g)
    ensures f.cgpa == g.cgpa && f.opportunity == g.opportunity && f.offers == g.offers && f.student == g.student
  {
    var f4, g4 := "}, \"student_id\": \"" + (UuidText(f.student) + "\"}"), "}, \"student_id\": \"" + (UuidText(g.student) + "\"}");
    var f3, g3 := Decimal(f.offers) + f4, Decimal(g.offers) + g4;
    var label2 := "\", \"placement_history\": {\"active_offer_count\": ";
    var f2, g2 := UuidText(f.opportunity) + (label2 + f3), UuidText(g.opportunity) + (label2 + g3);
    var label1 := "}, \"opportunity_id\": \"";
    CgpaTextInjective(f.cgpa, g.cgpa, label1 + f2, label1 + g2);
    CutHead(label1, label1, f2, g2);
    CutHead(UuidText(f.opportunity), UuidText(g.opportunity), label2 + f3, label2 + g3);
    CutHead(label2, label2, f3, g3);
    DecimalIsDigits(f.offers);
    DecimalIsDigits(g.offers);
    CutDigits(Decimal(f.offers), Decimal(g.offers), f4, g4);
    DecimalInjective(f.offers, g.offers);
    CutHead("}, \"student_id\": \"", "}, \"student_id\": \"", UuidText(f.student) + "\"}", UuidText(g.student) + "\"}");
    CutHead(UuidText(f.student), UuidText(g.student), "\"}", "\"}");
    UuidTextInjective(f.student, g.student);
    UuidTextInjective(f.opportunity, g.opportunity);
  }

  lemma DumpsInjective(f: Facts, g: Facts)
    requires Dumps(f) == Dumps(g)
    ensures f == g
  {
    var label0, label1 := "{\"academic\": {\"backlogs\": ", ", \"cgpa\": ";
    CutHead(label0, label0, Decimal(f.backlogs) + (label1 + DumpsFromCgpa(f)),
            Decimal(g.backlogs) + (label1 + DumpsFromCgpa(g)));
    DecimalIsDigits(f.backlogs);
    DecimalIsDigits(g.backlogs);
    CutDigits(Decimal(f.backlogs), Decimal(g.backlogs), label1 + DumpsFromCgpa(f), label1 + DumpsFromCgpa(g));
    DecimalInjective(f.backlogs, g.backlogs);
    CutHead(label1, label1, DumpsFromCgpa(f), DumpsFromCgpa(g));
    DumpsFromCgpaInjective(f, g);
  }

  /** One key, one snapshot, one policy version, one requirement version. */
  lemma KeyInputInjective(f: Facts, p: Uuid, r: Uuid, g: Facts, q: Uuid, s: Uuid)
    requires KeyInput(f, p, r) == KeyInput(g, q, s)
    ensures f == g && p == q && r == s
  {
    var a, b, c, d := UuidText(p), UuidText(q), UuidText(r), UuidText(s);
    var x, y := "|" + (a + ("|" + (c + "|v1.0"))), "|" + (b + ("|" + (d + "|v1.0")));
    assert |Dumps(f)| == |Dumps(g)| by {
      assert |x| == |y|;
    }
    CutHead(Dumps(f), Dumps(g), x, y);
    DumpsInjective(f, g);
    CutHead("|", "|", a + ("|" + (c + "|v1.0")), b + ("|" + (d + "|v1.0")));
    CutHead(a, b, "|" + (c + "|v1.0"), "|" + (d + "|v1.0"));
    CutHead("|", "|", c + "|v1.0", d + "|v1.0");
    CutHead(c, d, "|v1.0", "|v1.0");
    UuidTextInjective(p, q);
    UuidTextInjective(r, s);
  }
}
