/** Event identifiers on the wire: "<epoch>-<sequence number>", read back from the
    Last-Event-ID header (section 9.2 of the WHATWG HTML Standard). */
module EventIds {
  import opened Basics

  // ----- decimal numerals -----

  predicate IsDigit(c: char) { '0' <= c <= '9' }

  function DigitValue(c: char): nat
    requires IsDigit(c)
  {
    c as int - '0' as int
  }

  function DigitOf(d: nat): (c: char)
    requires d < 10
    ensures IsDigit(c) && DigitValue(c) == d
  {
    '0' + d as char
  }

  /** Python's `str(n)`. */
  function Decimal(n: nat): (s: string)
    ensures s != [] && forall i | 0 <= i < |s| :: IsDigit(s[i])
  {
    if n < 10 then [DigitOf(n)] else Decimal(n / 10) + [DigitOf(n % 10)]
  }

  /** Digits with single underscores between them; None when malformed. */
  function Numeral(s: string): Option<nat>
    decreases |s|
  {
    if s == [] || !IsDigit(s[|s| - 1]) then None
    else if |s| == 1 then Some(DigitValue(s[0]))
    else
      var before := if s[|s| - 2] == '_' then Numeral(s[..|s| - 2]) else Numeral(s[..|s| - 1]);
      if before.None? then None else Some(10 * before.value + DigitValue(s[|s| - 1]))
  }

  predicate IsSpace(c: char) {
    c == ' ' || '\t' <= c <= '\r' || 28 as char <= c <= 31 as char
  }

  function StripLeft(s: string): string {
    if s != [] && IsSpace(s[0]) then StripLeft(s[1..]) else s
  }

  function StripRight(s: string): string {
    if s != [] && IsSpace(s[|s| - 1]) then StripRight(s[..|s| - 1]) else s
  }

  /** Python's `int(s)` on ASCII text without a minus sign. */
  function ParseInt(s: string): Option<nat> {
    var t := StripRight(StripLeft(s));
    Numeral(if t != [] && t[0] == '+' then t[1..] else t)
  }

  // ----- identifiers -----

  function EventIdOf(epoch: nat, seqNo: nat): string {
    Decimal(epoch) + "-" + Decimal(seqNo)
  }

  /** What follows the last dash, and what precedes it. */
  function RPartition(s: string): (r: Option<(string, string)>)
    ensures r.Some? ==> s == r.value.0 + "-" + r.value.1 && '-' !in r.value.1
    ensures r.None? ==> '-' !in s
  {
    if s == [] then None
    else if s[|s| - 1] == '-' then Some((s[..|s| - 1], []))
    else
      var r := RPartition(s[..|s| - 1]);
      if r.None? then None else Some((r.value.0, r.value.1 + [s[|s| - 1]]))
  }

  /** The header's epoch text and number; because the split is at the last dash, the
      number carries no sign and is never negative. */
  function ParseEventId(id: string): Option<(string, nat)> {
    var parts := RPartition(id);
    if parts.None? || parts.value.0 == [] then None
    else
      var n := ParseInt(parts.value.1);
      if n.None? then None else Some((parts.value.0, n.value))
  }

  // ----- round trip -----

  lemma {:induction false} NumeralOfDecimal(n: nat)
    ensures Numeral(Decimal(n)) == Some(n)
  {
    if n >= 10 {
      var s := Decimal(n);
      NumeralOfDecimal(n / 10);
      assert s[..|s| - 1] == Decimal(n / 10);
    }
  }

  /** Exactly the digit strings with single underscores between digits are numbers. */
  lemma {:induction false} NumeralIff(s: string)
    ensures Numeral(s).Some? <==>
              && s != [] && IsDigit(s[0]) && IsDigit(s[|s| - 1])
              && (forall i | 0 <= i < |s| :: IsDigit(s[i]) || s[i] == '_')
              && (forall i | 0 < i < |s| :: IsDigit(s[i - 1]) || IsDigit(s[i]))
    decreases |s|
  {
    if |s| > 1 && IsDigit(s[|s| - 1]) {
      NumeralIff(if s[|s| - 2] == '_' then s[..|s| - 2] else s[..|s| - 1]);
    }
  }

  function Bare(s: string): string {
    if s == [] then [] else Bare(s[..|s| - 1]) + if s[|s| - 1] == '_' then [] else [s[|s| - 1]]
  }

  /** The underscores carry no value. */
  lemma {:induction false} UnderscoresIgnored(s: string)
    requires Numeral(s).Some?
    ensures Bare(s) != [] && IsDigit(Bare(s)[|Bare(s)| - 1]) && Numeral(Bare(s)) == Numeral(s)
    decreases |s|
  {
    if |s| == 1 {
      assert Bare(s[..0]) == [];
    } else {
      var n := |s| - 1;
      var before := if s[n - 1] == '_' then s[..n - 1] else s[..n];
      assert Bare(s[..n]) == Bare(before) by {
        if s[n - 1] == '_' {
          assert s[..n][..n - 1] == before;
        }
      }
      UnderscoresIgnored(before);
      assert Bare(s)[..|Bare(s)| - 1] == Bare(before);
    }
  }

  lemma {:induction false} RPartitionOf(a: string, b: string)
    requires '-' !in b
    ensures RPartition(a + "-" + b) == Some((a, b))
    decreases |b|
  {
    var s := a + "-" + b;
    if b == [] {
      assert s[..|s| - 1] == a;
    } else {
      RPartitionOf(a, b[..|b| - 1]);
      assert s[..|s| - 1] == a + "-" + b[..|b| - 1];
      assert b[..|b| - 1] + [s[|s| - 1]] == b;
    }
  }

  lemma DigitsAreBare(d: string)
    requires d != [] && forall i | 0 <= i < |d| :: IsDigit(d[i])
    ensures ParseInt(d) == Numeral(d) && '-' !in d
  {
    assert !IsSpace(d[0]) && !IsSpace(d[|d| - 1]) && d[0] != '+';
    assert StripLeft(d) == d;
    assert StripRight(d) == d;
  }

  lemma {:induction false} StripLeftOfLonger(s: string, c: char)
    requires IsSpace(c)
    ensures StripLeft(s + [c]) == if StripLeft(s) == [] then [] else StripLeft(s) + [c]
  {
    if s == [] {
      assert [c][1..] == [];
    } else if IsSpace(s[0]) {
      assert (s + [c])[1..] == s[1..] + [c];
      StripLeftOfLonger(s[1..], c);
    }
  }

  /** Blanks around a number and one plus sign before it do not matter. */
  lemma BlanksAndPlusIgnored(s: string, c: char, d: string)
    requires IsSpace(c) && d != [] && forall i | 0 <= i < |d| :: IsDigit(d[i])
    ensures ParseInt([c] + s) == ParseInt(s) == ParseInt(s + [c])
    ensures ParseInt("+" + d) == Numeral(d)
  {
    assert ([c] + s)[1..] == s;
    StripLeftOfLonger(s, c);
    var t := StripLeft(s);
    if t != [] {
      assert (t + [c])[..|t|] == t;
    }
    PlusIgnored(d);
  }

  lemma PlusIgnored(d: string)
    requires d != [] && forall i | 0 <= i < |d| :: IsDigit(d[i])
    ensures ParseInt("+" + d) == Numeral(d)
  {
    var s := "+" + d;
    assert s[0] == '+' && s[|s| - 1] == d[|d| - 1];
    assert StripLeft(s) == s && StripRight(s) == s;
    assert s[1..] == d;
  }

  /** An identifier the hub wrote reads back as the epoch and number it was written from. */
  lemma ParseOfEventId(epoch: nat, seqNo: nat)
    ensures ParseEventId(EventIdOf(epoch, seqNo)) == Some((Decimal(epoch), seqNo))
  {
    DigitsAreBare(Decimal(seqNo));
    RPartitionOf(Decimal(epoch), Decimal(seqNo));
    NumeralOfDecimal(seqNo);
    assert EventIdOf(epoch, seqNo) == Decimal(epoch) + "-" + Decimal(seqNo);
  }

  /** Different events never share an identifier, within and across epochs. */
  lemma EventIdInjective(e1: nat, n1: nat, e2: nat, n2: nat)
    requires EventIdOf(e1, n1) == EventIdOf(e2, n2)
    ensures e1 == e2 && n1 == n2
  {
    ParseOfEventId(e1, n1);
    ParseOfEventId(e2, n2);
    NumeralOfDecimal(e1);
    NumeralOfDecimal(e2);
  }
}
