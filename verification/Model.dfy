/**
 The metric object shared by agent and server. Floats are reals; the library printer
 strconv.FormatFloat is the parameter `fmt`, and the md5 digest is represented by the text it is taken of.
 */
module Model {
  import opened Int64

  datatype Option<+T> = None | Some(value: T)

  /** The type string: empty, one of the two constants, or any other text. */
  datatype MType = Unset | Counter | Gauge | Other(text: string)

  function Text(t: MType): string {
    match t
    case Unset => ""
    case Counter => "counter"
    case Gauge => "gauge"
    case Other(text) => text
  }

  /** The type of a text, so that no type has two forms. */
  function TypeOf(text: string): (t: MType)
    ensures Text(t) == text && Proper(t)
  {
    if text == "" then Unset else if text == "counter" then Counter else if text == "gauge" then Gauge else Other(text)
  }

  predicate Proper(t: MType) {
    t.Other? ==> t.text !in {"", "counter", "gauge"}
  }

  /** A metric with its pointers followed. */
  datatype Metric = Metric(id: string, mtype: MType, delta: Option<int64>, value: Option<real>)

  function CounterMetric(id: string, d: int64): Metric {
    Metric(id, Counter, Some(d), None)
  }

  function GaugeMetric(id: string, x: real): Metric {
    Metric(id, Gauge, None, Some(x))
  }

  /** A counter with only a delta or a gauge with only a value. */
  predicate WellFormed(m: Metric) {
    || (m.mtype == Counter && m.delta.Some? && m.value == None)
    || (m.mtype == Gauge && m.delta == None && m.value.Some?)
  }

  class Int64Ref {
    var v: int64

    constructor (v: int64)
      ensures this.v == v
    {
      this.v := v;
    }
  }

  /** `Value` is never written through, so only `Delta` keeps its pointer. `hashed` is what `hash` was taken of. */
  class Metrics {
    var id: string
    var mtype: MType
    var delta: Int64Ref?
    var value: Option<real>
    var hash: string
    ghost var hashed: Metric

    function View(): Metric
      reads this, delta
    {
      Metric(id, mtype, if delta == null then None else Some(delta.v), value)
    }

    /** The hash is that of the fields last hashed. */
    ghost predicate Hashed(fmt: real -> string)
      reads this
    {
      hash == PreImage(fmt, hashed)
    }

    constructor (fmt: real -> string, id: string, mtype: MType, delta: Int64Ref?, value: Option<real>)
      ensures this.delta == delta
      ensures hashed == View() == Metric(id, mtype, if delta == null then None else Some(delta.v), value)
      ensures Hashed(fmt)
    {
      this.id, this.mtype, this.delta, this.value := id, mtype, delta, value;
      new;
      UpdateHash(fmt);
    }

    constructor GaugeWithValue(fmt: real -> string, id: string, value: real)
      ensures delta == null && hashed == View() == GaugeMetric(id, value)
      ensures Hashed(fmt)
    {
      this.id, this.mtype, this.delta, this.value := id, Gauge, null, Some(value);
      new;
      UpdateHash(fmt);
    }

    constructor CounterWithDelta(fmt: real -> string, id: string, delta: int64)
      ensures hashed == View() == CounterMetric(id, delta)
      ensures this.delta != null && fresh(this.delta)
      ensures Hashed(fmt)
    {
      this.id, this.mtype, this.value := id, Counter, None;
      var d := new Int64Ref(delta);
      this.delta := d;
      new;
      UpdateHash(fmt);
    }

    method SetGauge(fmt: real -> string, value: real)
      modifies this
      ensures delta == old(delta)
      ensures hashed == View() == old(View()).(value := Some(value))
      ensures Hashed(fmt)
    {
      this.value := Some(value);
      UpdateHash(fmt);
    }

    method AddCounter(fmt: real -> string, d: int64)
      modifies this, delta
      ensures if old(delta) == null then delta != null && fresh(delta) else delta == old(delta)
      ensures hashed == View() == old(View()).(delta := Some(
                  if old(delta) == null then d else Wrap(old(View()).delta.value + d)))
      ensures Hashed(fmt)
    {
      if delta == null {
        delta := new Int64Ref(d);
      } else {
        delta.v := Wrap(delta.v + d);
      }
      UpdateHash(fmt);
    }

    method UpdateHash(fmt: real -> string)
      modifies this`hash, this`hashed
      ensures hashed == View() && Hashed(fmt)
    {
      var parts := new string[4](_ => "");
      parts[0] := id;
      parts[1] := Text(mtype);
      parts[2] := "nil";
      if delta != null {
        parts[2] := FormatInt(delta.v);
      }
      parts[3] := "nil";
      if value.Some? {
        parts[3] := fmt(value.value);
      }
      assert parts[..] == Parts(fmt, View());
      hash := Join(parts[..]);
      hashed := View();
    }
  }

  /** Marks the IDs of a map of objects that a proof looks into. */
  ghost predicate Looked(id: string) {
    true
  }

  lemma OccursTwice<T>(xs: seq<T>, i: nat, j: nat)
    requires i < j < |xs| && xs[i] == xs[j]
    ensures multiset(xs)[xs[i]] >= 2
  {
    assert xs == xs[..i] + [xs[i]] + xs[i + 1..j] + [xs[j]] + xs[j + 1..];
  }

  // ---- the text that is hashed ----

  function Part(fmt: real -> string, m: Metric, i: nat): string {
    match i
    case 0 => m.id
    case 1 => Text(m.mtype)
    case 2 => if m.delta.Some? then FormatInt(m.delta.value) else "nil"
    case _ => if m.value.Some? then fmt(m.value.value) else "nil"
  }

  function Parts(fmt: real -> string, m: Metric): seq<string> {
    seq(4, i requires 0 <= i < 4 => Part(fmt, m, i))
  }

  /** strings.Join(parts, "#") */
  function Join(parts: seq<string>): string {
    if parts == [] then "" else if |parts| == 1 then parts[0]
    else Join(parts[..|parts| - 1]) + "#" + parts[|parts| - 1]
  }

  function PreImage(fmt: real -> string, m: Metric): string {
    Join(Parts(fmt, m))
  }

  lemma JoinFour(p0: string, p1: string, p2: string, p3: string)
    ensures Join([p0, p1, p2, p3]) == p0 + "#" + p1 + "#" + p2 + "#" + p3
  {
    var two, three, four := [p0, p1], [p0, p1, p2], [p0, p1, p2, p3];
    assert four[..3] == three && three[..2] == two && two[..1] == [p0];
    assert Join(two) == Join([p0]) + "#" + p1;
    assert Join(three) == Join(two) + "#" + p2;
  }

  function Digits(n: nat): string {
    var d := ["0123456789"[n % 10]];
    if n < 10 then d else Digits(n / 10) + d
  }

  function FormatInt(n: int): string {
    if n < 0 then "-" + Digits(-n) else Digits(n)
  }

  function DigitValue(c: char): nat {
    if '0' <= c <= '9' then c as int - '0' as int else 0
  }

  function ParseDigits(s: string): nat {
    if s == "" then 0 else 10 * ParseDigits(s[..|s| - 1]) + DigitValue(s[|s| - 1])
  }

  function ParseInt(s: string): int {
    if s != "" && s[0] == '-' then 0 - ParseDigits(s[1..]) else ParseDigits(s)
  }

  lemma {:induction false} DigitsParse(n: nat)
    ensures ParseDigits(Digits(n)) == n
    ensures Digits(n) != "" && forall c | c in Digits(n) :: '0' <= c <= '9'
  {
    var c := "0123456789"[n % 10];
    assert '0' <= c <= '9' && DigitValue(c) == n % 10;
    if n < 10 {
      assert ParseDigits(Digits(n)) == 10 * ParseDigits("") + DigitValue(c);
    } else {
      DigitsParse(n / 10);
      var s := Digits(n / 10) + [c];
      assert s[..|s| - 1] == Digits(n / 10);
    }
  }

  /** A decimal numeral without leading zeros. */
  predicate IsNumeral(s: string) {
    s != "" && (forall c | c in s :: '0' <= c <= '9') && (s[0] == '0' ==> |s| == 1)
  }

  lemma {:induction false} DigitsNumeral(n: nat)
    ensures IsNumeral(Digits(n)) && (Digits(n)[0] == '0' <==> n == 0)
  {
    DigitsParse(n);
    if n >= 10 {
      DigitsNumeral(n / 10);
      assert Digits(n)[0] == Digits(n / 10)[0];
    }
  }

  lemma DigitOf(c: char)
    requires '0' <= c <= '9'
    ensures DigitValue(c) < 10 && "0123456789"[DigitValue(c)] == c && (DigitValue(c) == 0 <==> c == '0')
  {
  }

  /** The last digit is printed last, behind the print of the others. */
  lemma LastDigit(init: string, last: char)
    requires init != "" && '0' <= last <= '9' && ParseDigits(init) > 0 && Digits(ParseDigits(init)) == init
    ensures ParseDigits(init + [last]) == 10 * ParseDigits(init) + DigitValue(last)
    ensures Digits(ParseDigits(init + [last])) == init + [last]
  {
    DigitOf(last);
    assert (init + [last])[..|init|] == init;
    var n := ParseDigits(init + [last]);
    assert n / 10 == ParseDigits(init) && n % 10 == DigitValue(last) && n >= 10;
  }

  lemma {:induction false} OnlyNumeral(s: string)
    requires IsNumeral(s)
    ensures s == Digits(ParseDigits(s)) && (s[0] != '0' ==> ParseDigits(s) > 0)
  {
    var last, init := s[|s| - 1], s[..|s| - 1];
    assert last in s && s == init + [last];
    if init == "" {
      OneDigit(last);
    } else {
      InitNumeral(s, init, last);
      OnlyNumeral(init);
      LastDigit(init, last);
    }
  }

  lemma OneDigit(c: char)
    requires '0' <= c <= '9'
    ensures ParseDigits([c]) == DigitValue(c) && Digits(DigitValue(c)) == [c] && (c != '0' ==> DigitValue(c) > 0)
  {
    DigitOf(c);
    assert [c][..0] == "" && ParseDigits("") == 0;
  }

  lemma InitNumeral(s: string, init: string, last: char)
    requires IsNumeral(s) && s == init + [last] && init != ""
    ensures IsNumeral(init) && init[0] == s[0] && s[0] != '0'
  {
    assert forall c | c in init :: c in s;
  }

  /** There is one numeral for each number. */
  lemma NumeralIff(s: string, n: nat)
    ensures s == Digits(n) <==> IsNumeral(s) && ParseDigits(s) == n
  {
    DigitsNumeral(n);
    DigitsParse(n);
    if IsNumeral(s) {
      OnlyNumeral(s);
    }
  }

  /** A delta is printed as the one numeral of its value, with a sign only if it is negative. */
  lemma FormatIntIff(s: string, n: int)
    ensures n >= 0 ==> (s == FormatInt(n) <==> IsNumeral(s) && ParseDigits(s) == n)
    ensures n < 0 ==>
              (s == FormatInt(n) <==> s != "" && s[0] == '-' && IsNumeral(s[1..]) && ParseDigits(s[1..]) == -n)
  {
    if n >= 0 {
      NumeralIff(s, n);
    } else if s != "" {
      NumeralIff(s[1..], -n);
      assert FormatInt(n) == "-" + Digits(-n) && s == [s[0]] + s[1..];
    }
  }

  /** Decimal printing loses nothing, and prints neither '#' nor "nil". */
  lemma IntRoundTrip(n: int)
    ensures ParseInt(FormatInt(n)) == n
    ensures '#' !in FormatInt(n) && FormatInt(n) != "nil"
  {
    DigitsParse(if n < 0 then -n else n);
    if n < 0 {
      assert FormatInt(n)[0] == '-' && FormatInt(n)[1..] == Digits(-n);
    } else {
      assert FormatInt(n)[0] in Digits(n);
    }
  }

  /** Cuts at the last '#'. */
  function CutLast(s: string): (r: (string, string))
    ensures |r.0| < |s| || s == ""
  {
    if s == "" then ("", "")
    else if s[|s| - 1] == '#' then (s[..|s| - 1], "")
    else var (a, b) := CutLast(s[..|s| - 1]); (a, b + [s[|s| - 1]])
  }

  lemma {:induction false} CutLastJoin(a: string, b: string)
    requires '#' !in b
    ensures CutLast(a + "#" + b) == (a, b)
  {
    var s := a + "#" + b;
    if b == "" {
      assert s[..|s| - 1] == a;
    } else {
      assert s[..|s| - 1] == a + "#" + b[..|b| - 1];
      CutLastJoin(a, b[..|b| - 1]);
      assert b == b[..|b| - 1] + [s[|s| - 1]];
    }
  }

  /** Reads a hashed text back: ID, type, delta, and the printed value. */
  function Decode(text: string): (string, string, Option<int>, Option<string>) {
    var (r3, p3) := CutLast(text);
    var (r2, p2) := CutLast(r3);
    var (p0, p1) := CutLast(r2);
    (p0, p1, if p2 == "nil" then None else Some(ParseInt(p2)), if p3 == "nil" then None else Some(p3))
  }

  /** A float printer as FormatFloat is on the values it prints: injective, and never mistaken for other parts. */
  ghost predicate Prints(fmt: real -> string, floats: iset<real>) {
    && (forall x | x in floats :: '#' !in fmt(x) && fmt(x) != "nil")
    && (forall x, y | x in floats && y in floats && fmt(x) == fmt(y) :: x == y)
  }

  ghost predicate ValueIn(m: Metric, floats: iset<real>) {
    m.value.Some? ==> m.value.value in floats
  }

  /** The hashed text decodes to the fields it was made of, whatever characters the ID holds. */
  lemma PreImageDecodes(fmt: real -> string, floats: iset<real>, m: Metric)
    requires Prints(fmt, floats) && ValueIn(m, floats) && '#' !in Text(m.mtype)
    ensures Decode(PreImage(fmt, m)) ==
            (m.id, Text(m.mtype), m.delta, if m.value.Some? then Some(fmt(m.value.value)) else None)
  {
    PreImageCut(fmt, floats, m);
    CutLastJoin(m.id, Text(m.mtype));
  }

  /** Equal hashed texts come from equal metrics: the hash confuses no two metrics of the known types. */
  lemma PreImageInjective(fmt: real -> string, floats: iset<real>, m: Metric, n: Metric)
    requires Prints(fmt, floats) && ValueIn(m, floats) && ValueIn(n, floats)
    requires m.mtype in {Counter, Gauge} && n.mtype in {Counter, Gauge}
    ensures PreImage(fmt, m) == PreImage(fmt, n) <==> m == n
  {
    assert '#' !in Text(m.mtype) && '#' !in Text(n.mtype);
    assert Text(m.mtype)[0] == Text(n.mtype)[0] ==> m.mtype == n.mtype;
    PreImageDecodes(fmt, floats, m);
    PreImageDecodes(fmt, floats, n);
    match (m.value, n.value) {
      case (Some(x), Some(y)) => assert fmt(x) == fmt(y) ==> x == y;
      case _ =>
    }
  }

  lemma SplitAt(s: string) returns (before: string, behind: string)
    requires '#' in s
    ensures s == before + "#" + behind
  {
    var k :| 0 <= k < |s| && s[k] == '#';
    before, behind := s[..k], s[k + 1..];
  }

  /** The texts are joined alike wherever the '#' between ID and type is taken to stand. */
  lemma Rejoined(fmt: real -> string, m: Metric, n: Metric)
    requires m.id + "#" + Text(m.mtype) == n.id + "#" + Text(n.mtype)
    requires m.delta == n.delta && m.value == n.value
    ensures PreImage(fmt, m) == PreImage(fmt, n)
  {
    var p2 := if m.delta.Some? then FormatInt(m.delta.value) else "nil";
    var p3 := if m.value.Some? then fmt(m.value.value) else "nil";
    assert Parts(fmt, m) == [m.id, Text(m.mtype), p2, p3] && Parts(fmt, n) == [n.id, Text(n.mtype), p2, p3];
    JoinFour(m.id, Text(m.mtype), p2, p3);
    JoinFour(n.id, Text(n.mtype), p2, p3);
  }

  /** Every metric whose type holds '#' shares its hashed text with a metric of another ID. */
  lemma PreImageAmbiguousType(fmt: real -> string, m: Metric) returns (n: Metric)
    requires '#' in Text(m.mtype)
    ensures n.id != m.id && Proper(n.mtype) && n.delta == m.delta && n.value == m.value
    ensures PreImage(fmt, n) == PreImage(fmt, m)
  {
    var a, b := SplitAt(Text(m.mtype));
    n := Metric(m.id + "#" + a, TypeOf(b), m.delta, m.value);
    assert m.id + "#" + Text(m.mtype) == n.id + "#" + Text(n.mtype);
    Rejoined(fmt, m, n);
  }

  /** So does every metric whose ID holds one, if types are not restricted. */
  lemma PreImageAmbiguousId(fmt: real -> string, m: Metric) returns (n: Metric)
    requires '#' in m.id
    ensures n.id != m.id && Proper(n.mtype) && n.delta == m.delta && n.value == m.value
    ensures PreImage(fmt, n) == PreImage(fmt, m)
  {
    var a, b := SplitAt(m.id);
    n := Metric(a, TypeOf(b + "#" + Text(m.mtype)), m.delta, m.value);
    assert m.id + "#" + Text(m.mtype) == n.id + "#" + Text(n.mtype);
    Rejoined(fmt, m, n);
  }

  lemma HashAt(a: string, b: string, k: nat)
    requires k < |a + "#" + b|
    ensures (a + "#" + b)[k] == '#' ==> k == |a| || '#' in a || '#' in b
  {
    assert (a + "#" + b)[k] == if k < |a| then a[k] else if k == |a| then '#' else b[k - |a| - 1];
  }

  lemma OneHashOnly(a: string, b: string, c: string, d: string)
    requires '#' !in a && '#' !in b && a + "#" + b == c + "#" + d
    ensures a == c && b == d
  {
    var l, r := a + "#" + b, c + "#" + d;
    assert r[|c|] == '#';
    HashAt(a, b, |c|);
    assert l[..|a|] == a && r[..|a|] == c && l[|a| + 1..] == b && r[|a| + 1..] == d;
  }

  /** What two metrics with the same hashed text share. */
  lemma PreImageShares(fmt: real -> string, floats: iset<real>, m: Metric, n: Metric)
    requires Prints(fmt, floats) && ValueIn(m, floats) && ValueIn(n, floats) && PreImage(fmt, m) == PreImage(fmt, n)
    ensures m.id + "#" + Text(m.mtype) == n.id + "#" + Text(n.mtype) && m.delta == n.delta && m.value == n.value
  {
    PreImageCut(fmt, floats, m);
    PreImageCut(fmt, floats, n);
    match (m.value, n.value) {
      case (Some(x), Some(y)) => assert fmt(x) == fmt(y) ==> x == y;
      case _ =>
    }
  }

  lemma PreImageCut(fmt: real -> string, floats: iset<real>, m: Metric)
    requires Prints(fmt, floats) && ValueIn(m, floats)
    ensures var (r3, p3) := CutLast(PreImage(fmt, m));
            var (r2, p2) := CutLast(r3);
            && r2 == m.id + "#" + Text(m.mtype)
            && (if p2 == "nil" then None else Some(ParseInt(p2))) == m.delta
            && (p3 == "nil" <==> m.value == None)
            && (m.value.Some? ==> p3 == fmt(m.value.value))
  {
    var p2 := if m.delta.Some? then FormatInt(m.delta.value) else "nil";
    var p3 := if m.value.Some? then fmt(m.value.value) else "nil";
    if m.delta.Some? {
      IntRoundTrip(m.delta.value);
    }
    match m.value {
      case None =>
      case Some(x) => assert '#' !in fmt(x);
    }
    assert '#' !in p2 && '#' !in p3;
    assert Parts(fmt, m) == [m.id, Text(m.mtype), p2, p3];
    JoinFour(m.id, Text(m.mtype), p2, p3);
    CutLastJoin(m.id + "#" + Text(m.mtype) + "#" + p2, p3);
    CutLastJoin(m.id + "#" + Text(m.mtype), p2);
  }

  /** A hashed text belongs to one metric alone, of whatever type, if and only if neither ID nor type holds '#'. */
  lemma PreImageUnambiguousIff(fmt: real -> string, floats: iset<real>, m: Metric)
    requires Prints(fmt, floats) && ValueIn(m, floats) && Proper(m.mtype)
    ensures (forall n: Metric ::
               Proper(n.mtype) && ValueIn(n, floats) && PreImage(fmt, n) == PreImage(fmt, m) ==> n == m)
       <==> '#' !in m.id && '#' !in Text(m.mtype)
  {
    if '#' in m.id {
      var n := PreImageAmbiguousId(fmt, m);
      assert ValueIn(n, floats);
    } else if '#' in Text(m.mtype) {
      var n := PreImageAmbiguousType(fmt, m);
      assert ValueIn(n, floats);
    } else {
      forall n: Metric | Proper(n.mtype) && ValueIn(n, floats) && PreImage(fmt, n) == PreImage(fmt, m)
        ensures n == m
      {
        PreImageShares(fmt, floats, m, n);
        OneHashOnly(m.id, Text(m.mtype), n.id, Text(n.mtype));
        assert TypeOf(Text(m.mtype)) == m.mtype && TypeOf(Text(n.mtype)) == n.mtype;
      }
    }
  }
}
