/** The string operations backend keys are built from: `str(int)`, `int(str)`, `join`, `split`, `rpartition`. */
module Texts {
  import opened Wrappers

  const SEP: char := '|'

  predicate SepFree(s: string) {
    SEP !in s
  }

  // ---------------------------------------------------------------- integers

  predicate IsDigit(c: char) {
    '0' <= c <= '9'
  }

  function DigitOf(d: nat): char
    requires d < 10
  {
    ['0', '1', '2', '3', '4', '5', '6', '7', '8', '9'][d]
  }

  function ValueOf(c: char): (d: nat)
    requires IsDigit(c)
    ensures d < 10
  {
    (c - '0') as nat
  }

  function NatText(n: nat): string {
    if n < 10 then [DigitOf(n)] else NatText(n / 10) + [DigitOf(n % 10)]
  }

  /** `str(i)` */
  function IntText(i: int): string {
    if i < 0 then ['-'] + NatText(-i) else NatText(i)
  }

  function ParseNat(s: string): Option<nat> {
    if |s| == 0 || !IsDigit(s[|s| - 1]) then None
    else if |s| == 1 then Some(ValueOf(s[0]))
    else match ParseNat(s[..|s| - 1])
      case None => None
      case Some(n) => Some(10 * n + ValueOf(s[|s| - 1]))
  }

  /** `int(s)`, for an optional minus sign and decimal digits. */
  function ParseInt(s: string): Option<int> {
    if |s| > 0 && s[0] == '-' then
      match ParseNat(s[1..])
      case None => None
      case Some(n) => Some(-(n as int))
    else
      match ParseNat(s)
      case None => None
      case Some(n) => Some(n)
  }

  lemma {:induction false} ParseNatText(n: nat)
    ensures ParseNat(NatText(n)) == Some(n)
    ensures |NatText(n)| > 0 && forall c :: c in NatText(n) ==> IsDigit(c)
  {
    if n >= 10 {
      ParseNatText(n / 10);
      assert NatText(n)[..|NatText(n)| - 1] == NatText(n / 10);
    }
  }

  lemma DigitsArePlain(s: string)
    requires |s| > 0 && forall c :: c in s ==> IsDigit(c)
    ensures SepFree(s) && s[0] != '-' && s != "_" && SepFree(['-'] + s)
  {
    assert s[0] in s;
  }

  /** Printing an integer, negative or not, and reading it back. */
  lemma ParseIntText(i: int)
    ensures ParseInt(IntText(i)) == Some(i)
    ensures SepFree(IntText(i)) && |IntText(i)| > 0 && IntText(i) != "_"
  {
    hide NatText, ParseNat;
    var n := if i < 0 then -i else i;
    ParseNatText(n);
    DigitsArePlain(NatText(n));
    assert (['-'] + NatText(n))[1..] == NatText(n);
  }

  /** The digits come in the usual order, behind the sign. */
  lemma PrintedDigits(n: int, d: nat)
    requires n >= 0 && d < 10
    ensures IntText(10 * n + d) == (if n == 0 then "" else IntText(n)) + [DigitOf(d)]
    ensures n > 0 ==> IntText(-n) == "-" + IntText(n)
  {
  }

  // ---------------------------------------------------------------- join and split

  function Join(parts: seq<string>): string {
    if |parts| == 0 then "" else if |parts| == 1 then parts[0] else parts[0] + [SEP] + Join(parts[1..])
  }

  function Split(s: string): (parts: seq<string>)
    ensures |parts| > 0
  {
    if |s| == 0 then [""]
    else if s[0] == SEP then [""] + Split(s[1..])
    else var rest := Split(s[1..]); [[s[0]] + rest[0]] + rest[1..]
  }

  lemma {:induction false} SplitWord(a: string)
    requires SepFree(a)
    ensures Split(a) == [a]
  {
    if |a| > 0 {
      SplitWord(a[1..]);
      assert a == [a[0]] + a[1..];
    }
  }

  /** One field exactly when there is no separator. */
  lemma {:induction false} SplitOne(a: string)
    ensures |Split(a)| == 1 <==> SepFree(a)
  {
    if |a| > 0 {
      SplitOne(a[1..]);
      assert a == [a[0]] + a[1..];
    }
  }

  lemma SplitStep(s: string)
    ensures Split(s) == if |s| == 0 then [""]
                        else if s[0] == SEP then [""] + Split(s[1..])
                        else [[s[0]] + Split(s[1..])[0]] + Split(s[1..])[1..]
  {
  }

  /** What a first character does to a list of fields, it does to the list's beginning. */
  lemma SameStart(c: char, fields: seq<string>, more: seq<string>)
    requires |fields| > 0
    ensures [[c] + (fields + more)[0]] + (fields + more)[1..] == [[c] + fields[0]] + fields[1..] + more
    ensures [""] + (fields + more) == [""] + fields + more
  {
    assert (fields + more)[1..] == fields[1..] + more;
  }

  /** A separator between two texts splits them apart, whatever else they hold. */
  lemma {:induction false} SplitAt(a: string, rest: string)
    ensures Split(a + [SEP] + rest) == Split(a) + Split(rest)
  {
    hide Split;
    var s := a + [SEP] + rest;
    SplitStep(s);
    SplitStep(a);
    if |a| == 0 {
      assert s[1..] == rest;
    } else {
      SplitAt(a[1..], rest);
      assert s[1..] == a[1..] + [SEP] + rest;
      SameStart(a[0], Split(a[1..]), Split(rest));
    }
  }

  lemma JoinCons(first: string, rest: seq<string>)
    ensures Join([first] + rest) == if |rest| == 0 then first else first + [SEP] + Join(rest)
  {
    assert ([first] + rest)[1..] == rest;
  }

  /** Joining undoes splitting, always. */
  lemma {:induction false} JoinSplit(s: string)
    ensures Join(Split(s)) == s
  {
    hide Split, Join;
    SplitStep(s);
    if |s| == 0 {
      JoinCons("", []);
      assert [""] + [] == [""];
    } else {
      var rest := Split(s[1..]);
      JoinSplit(s[1..]);
      JoinCons("", rest);
      JoinCons(rest[0], rest[1..]);
      JoinCons([s[0]] + rest[0], rest[1..]);
      assert rest == [rest[0]] + rest[1..] && s == [s[0]] + s[1..];
    }
  }

  /** Splitting undoes joining, whenever there is something to join and no part holds the separator. */
  lemma {:induction false} SplitJoin(parts: seq<string>)
    requires |parts| > 0 && forall p :: p in parts ==> SepFree(p)
    ensures Split(Join(parts)) == parts
  {
    if |parts| == 1 {
      SplitWord(parts[0]);
    } else {
      SplitJoin(parts[1..]);
      SplitWord(parts[0]);
      SplitAt(parts[0], Join(parts[1..]));
    }
  }

  lemma SplitThree(a: string, b: string, c: string, rest: string)
    ensures Split(a + [SEP] + b + [SEP] + c + [SEP] + rest) == Split(a) + (Split(b) + (Split(c) + Split(rest)))
  {
    hide Split;
    SplitAt(c, rest);
    SplitAt(b, c + [SEP] + rest);
    SplitAt(a, b + [SEP] + (c + [SEP] + rest));
    assert a + [SEP] + b + [SEP] + c + [SEP] + rest == a + [SEP] + (b + [SEP] + (c + [SEP] + rest));
    assert b + [SEP] + (c + [SEP] + rest) == b + [SEP] + c + [SEP] + rest;
  }

  // ---------------------------------------------------------------- rpartition

  /** `s.rpartition(sep)` without the middle: `None` when the separator does not occur. */
  function RPartition(s: string): Option<(string, string)> {
    if |s| == 0 then None
    else if s[|s| - 1] == SEP then Some((s[..|s| - 1], ""))
    else match RPartition(s[..|s| - 1])
      case None => None
      case Some(r) => Some((r.0, r.1 + [s[|s| - 1]]))
  }

  /** The part after the last separator holds none. */
  lemma {:induction false} RPartitionPlain(s: string)
    ensures RPartition(s).Some? ==> SepFree(RPartition(s).value.1)
  {
    if |s| > 0 && s[|s| - 1] != SEP {
      RPartitionPlain(s[..|s| - 1]);
    }
  }

  /** Whatever comes before, the part after the last separator is recovered intact. */
  lemma {:induction false} RPartitionAt(before: string, after: string)
    requires SepFree(after)
    ensures RPartition(before + [SEP] + after) == Some((before, after))
    decreases |after|
  {
    var s := before + [SEP] + after;
    if |after| == 0 {
      assert s[..|s| - 1] == before;
    } else {
      var shorter := after[..|after| - 1];
      RPartitionAt(before, shorter);
      assert s[..|s| - 1] == before + [SEP] + shorter;
      assert after == shorter + [after[|after| - 1]];
    }
  }
}
