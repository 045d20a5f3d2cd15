/**
  The JavaScript string built-ins the client relies on, for the inputs it
  gives them: `includes` with a literal needle, `split` on a non-empty
  separator, `Number.prototype.toString` on non-negative integers below
  2^53 and `padStart` with a one-character filler. `IndexOf` and `Join` are
  reference definitions: `includes` is stated through `IndexOf`, and `split`
  is checked against `Join`, which puts the separator back between the
  pieces.
 */
module Strings {

  /** `w` occurs in `s` starting at index `i`. */
  predicate OccursAt(s: string, w: string, i: int) {
    0 <= i && i + |w| <= |s| && s[i..i + |w|] == w
  }

  /** `s.indexOf(w, from)` for `from <= |s|`: the first index at or after `from`
      where `w` occurs, or -1. */
  function IndexOfFrom(s: string, w: string, from: nat): (r: int)
    decreases |s| - from
    ensures r == -1 || (from <= r && OccursAt(s, w, r))
    ensures r == -1 ==> forall i :: from <= i ==> !OccursAt(s, w, i)
    ensures r != -1 ==> forall i :: from <= i < r ==> !OccursAt(s, w, i)
  {
    if from + |w| > |s| then -1
    else if s[from..from + |w|] == w then from
    else IndexOfFrom(s, w, from + 1)
  }

  /** `s.indexOf(w)` */
  function IndexOf(s: string, w: string): int {
    IndexOfFrom(s, w, 0)
  }

  /** `s.includes(w)` */
  predicate Includes(s: string, w: string) {
    IndexOf(s, w) >= 0
  }

  lemma IncludesIff(s: string, w: string)
    ensures Includes(s, w) <==> exists i :: OccursAt(s, w, i)
  {
  }

  /** An occurrence inside a prefix of `s` is an occurrence in `s`. */
  lemma OccursInPrefix(s: string, w: string, n: nat, i: int)
    requires n <= |s| && OccursAt(s[..n], w, i)
    ensures OccursAt(s, w, i)
  {
    assert s[..n][i..i + |w|] == s[i..i + |w|];
  }

  /** Text appended after the first occurrence does not move it. */
  lemma IndexOfExtend(s: string, t: string, w: string)
    requires IndexOf(s, w) >= 0
    ensures IndexOf(s + t, w) == IndexOf(s, w)
  {
    var i := IndexOf(s, w);
    assert OccursAt(s, w, i);
    assert (s + t)[i..i + |w|] == s[i..i + |w|];
    assert OccursAt(s + t, w, i);
    var r := IndexOf(s + t, w);
    assert r != -1;
    if r < i {
      assert OccursAt(s + t, w, r);
      assert (s + t)[r..r + |w|] == s[r..r + |w|];
      assert OccursAt(s, w, r);
    }
  }

  /** A one-character needle that does not occur in `x` is first found right after it. */
  lemma IndexOfFirstChar(x: string, c: char, y: string)
    requires forall j :: 0 <= j < |x| ==> x[j] != c
    ensures IndexOf(x + [c] + y, [c]) == |x|
  {
    var t := x + [c] + y;
    assert t[|x|..|x| + 1] == [c];
    assert OccursAt(t, [c], |x|);
    forall j | 0 <= j < |x|
      ensures !OccursAt(t, [c], j)
    {
      assert t[j] == x[j];
      assert t[j..j + 1] != [c] by {
        assert t[j..j + 1][0] == t[j];
      }
    }
  }

  /** `s.split(sep)` for a non-empty separator: the pieces between successive
      non-overlapping occurrences of `sep`, found from left to right. */
  function Split(s: string, sep: string): (r: seq<string>)
    requires |sep| > 0
    decreases |s|
    ensures |r| >= 1
  {
    var i := IndexOf(s, sep);
    if i < 0 then [s] else [s[..i]] + Split(s[i + |sep|..], sep)
  }

  /** Splitting at an occurrence that is the first one: the text before it,
      then the split of the text after it. */
  lemma SplitAtFirst(a: string, b: string, sep: string)
    requires |sep| > 0 && IndexOf(a + sep, sep) == |a|
    ensures Split(a + sep + b, sep) == [a] + Split(b, sep)
  {
    IndexOfExtend(a + sep, b, sep);
    assert (a + sep + b)[..|a|] == a;
    assert (a + sep + b)[|a| + |sep|..] == b;
  }

  /** The first two pieces when the first two occurrences follow `a` and `b`. */
  lemma SplitTwoAtFirst(a: string, b: string, c: string, sep: string)
    requires |sep| > 0 && IndexOf(a + sep, sep) == |a| && IndexOf(b + sep, sep) == |b|
    ensures |Split(a + sep + b + sep + c, sep)| >= 2
    ensures Split(a + sep + b + sep + c, sep)[0] == a && Split(a + sep + b + sep + c, sep)[1] == b
  {
    assert a + sep + b + sep + c == a + sep + (b + sep + c);
    SplitAtFirst(a, b + sep + c, sep);
    SplitAtFirst(b, c, sep);
  }

  /** `pieces.join(sep)` */
  function Join(pieces: seq<string>, sep: string): string {
    if |pieces| == 0 then ""
    else if |pieces| == 1 then pieces[0]
    else pieces[0] + sep + Join(pieces[1..], sep)
  }

  /** Joining the pieces of a split with its separator gives back the string. */
  lemma {:induction false} SplitJoin(s: string, sep: string)
    requires |sep| > 0
    decreases |s|
    ensures Join(Split(s, sep), sep) == s
  {
    var i := IndexOf(s, sep);
    if i >= 0 {
      var rest := s[i + |sep|..];
      SplitStep(s, sep);
      SplitJoin(rest, sep);
      JoinCons(s[..i], Split(rest, sep), sep);
    }
  }

  /** One step of a split at the first occurrence of the separator. */
  lemma SplitStep(s: string, sep: string)
    requires |sep| > 0 && IndexOf(s, sep) >= 0
    ensures var i := IndexOf(s, sep);
      && s == s[..i] + sep + s[i + |sep|..]
      && Split(s, sep) == [s[..i]] + Split(s[i + |sep|..], sep)
  {
    var i := IndexOf(s, sep);
    assert OccursAt(s, sep, i);
    assert s == s[..i] + s[i..i + |sep|] + s[i + |sep|..];
  }

  lemma JoinCons(head: string, tail: seq<string>, sep: string)
    requires |tail| >= 1
    ensures Join([head] + tail, sep) == head + sep + Join(tail, sep)
  {
    assert ([head] + tail)[1..] == tail;
  }

  /** `d` starts with `w`. */
  predicate StartsWith(d: string, w: string) {
    |w| <= |d| && d[..|w|] == w
  }

  /** The first two pieces of a split, with the separator between them, are
      the start of the string; what follows them is empty or starts with
      another separator. */
  lemma SplitFirstTwo(s: string, sep: string) returns (dropped: string)
    requires |sep| > 0
    ensures |Split(s, sep)| == 1 ==> Split(s, sep)[0] == s
    ensures |Split(s, sep)| >= 2 ==>
      s == Split(s, sep)[0] + sep + Split(s, sep)[1] + dropped && (dropped == "" || StartsWith(dropped, sep))
  {
    dropped := "";
    var i := IndexOf(s, sep);
    if i >= 0 {
      var rest := s[i + |sep|..];
      SplitStep(s, sep);
      dropped := SplitRest(rest, sep);
    }
  }

  /** What follows the first piece of a split. */
  lemma SplitRest(rest: string, sep: string) returns (dropped: string)
    requires |sep| > 0
    ensures rest == Split(rest, sep)[0] + dropped
    ensures dropped == "" || StartsWith(dropped, sep)
  {
    var k := IndexOf(rest, sep);
    if k < 0 {
      dropped := "";
    } else {
      dropped := rest[k..];
      assert rest == rest[..k] + dropped;
    }
  }

  /** The separator occurs in none of the pieces of a split. */
  lemma {:induction false} SplitPiecesFree(s: string, sep: string)
    requires |sep| > 0
    decreases |s|
    ensures forall k :: 0 <= k < |Split(s, sep)| ==> !Includes(Split(s, sep)[k], sep)
  {
    var i := IndexOf(s, sep);
    if i >= 0 {
      var rest := s[i + |sep|..];
      SplitPiecesFree(rest, sep);
      assert !Includes(s[..i], sep) by {
        if Includes(s[..i], sep) {
          var j := IndexOf(s[..i], sep);
          OccursInPrefix(s, sep, i, j);
          assert false;
        }
      }
    }
  }

  /** The strings `hs` occur in `s` one after another, each starting after
      the end of the one before. */
  ghost predicate AppearInOrder(s: string, hs: seq<string>)
    decreases |hs|
  {
    |hs| == 0 || exists i :: OccursAt(s, hs[0], i) && AppearInOrder(s[i + |hs[0]|..], hs[1..])
  }

  /** Text added after a string keeps what appears in it in order. */
  lemma {:induction false} InOrderAppend(x: string, y: string, hs: seq<string>)
    requires AppearInOrder(x, hs)
    decreases |hs|
    ensures AppearInOrder(x + y, hs)
  {
    if |hs| > 0 {
      var i :| OccursAt(x, hs[0], i) && AppearInOrder(x[i + |hs[0]|..], hs[1..]);
      InOrderAppend(x[i + |hs[0]|..], y, hs[1..]);
      assert (x + y)[i..i + |hs[0]|] == x[i..i + |hs[0]|];
      assert (x + y)[i + |hs[0]|..] == x[i + |hs[0]|..] + y;
      assert OccursAt(x + y, hs[0], i) && AppearInOrder((x + y)[i + |hs[0]|..], hs[1..]);
    }
  }

  /** Text added before a string keeps what appears in it in order. */
  lemma InOrderPrepend(x: string, y: string, hs: seq<string>)
    requires AppearInOrder(y, hs)
    ensures AppearInOrder(x + y, hs)
  {
    if |hs| > 0 {
      var i :| OccursAt(y, hs[0], i) && AppearInOrder(y[i + |hs[0]|..], hs[1..]);
      var j := |x| + i;
      assert (x + y)[j..j + |hs[0]|] == y[i..i + |hs[0]|];
      assert (x + y)[j + |hs[0]|..] == y[i + |hs[0]|..];
      assert OccursAt(x + y, hs[0], j);
    }
  }

  /** Strings that appear in order in `x`, followed by strings that appear in
      order in `y`, appear in order in `x + y`. */
  lemma {:induction false} InOrderConcat(x: string, y: string, hs1: seq<string>, hs2: seq<string>)
    requires AppearInOrder(x, hs1) && AppearInOrder(y, hs2)
    decreases |hs1|
    ensures AppearInOrder(x + y, hs1 + hs2)
  {
    if |hs1| == 0 {
      assert hs1 + hs2 == hs2;
      InOrderPrepend(x, y, hs2);
    } else {
      var h := hs1[0];
      var i :| OccursAt(x, h, i) && AppearInOrder(x[i + |h|..], hs1[1..]);
      InOrderConcat(x[i + |h|..], y, hs1[1..], hs2);
      assert (x + y)[i..i + |h|] == x[i..i + |h|];
      assert (x + y)[i + |h|..] == x[i + |h|..] + y;
      assert (hs1 + hs2)[0] == h && (hs1 + hs2)[1..] == hs1[1..] + hs2;
      assert OccursAt(x + y, h, i) && AppearInOrder((x + y)[i + |h|..], (hs1 + hs2)[1..]);
    }
  }

  /** Text `h` added after a string where `hs` appear in order, and then any
      text, makes `hs` followed by `h` appear in order. */
  lemma InOrderSnoc(x: string, h: string, y: string, hs: seq<string>)
    requires AppearInOrder(x, hs)
    ensures AppearInOrder(x + h + y, hs + [h])
  {
    assert OccursAt(h + y, h, 0) by { assert (h + y)[..|h|] == h; }
    assert [h][0] == h && [h][1..] == [];
    assert OccursAt(h + y, [h][0], 0) && AppearInOrder((h + y)[|[h][0]|..], [h][1..]);
    assert AppearInOrder(h + y, [h]);
    InOrderConcat(x, h + y, hs, [h]);
    assert x + (h + y) == x + h + y;
  }

  /** Four strings separated by arbitrary text appear in order. */
  lemma FourInOrder(u0: string, h1: string, u1: string, h2: string, u2: string, h3: string, u3: string,
                    h4: string, u4: string)
    ensures AppearInOrder(u0 + h1 + u1 + h2 + u2 + h3 + u3 + h4 + u4, [h1, h2, h3, h4])
  {
    InOrderSnoc(u0, h1, u1, []);
    InOrderSnoc(u0 + h1 + u1, h2, u2, [] + [h1]);
    InOrderSnoc(u0 + h1 + u1 + h2 + u2, h3, u3, [] + [h1] + [h2]);
    InOrderSnoc(u0 + h1 + u1 + h2 + u2 + h3 + u3, h4, u4, [] + [h1] + [h2] + [h3]);
    assert [] + [h1] + [h2] + [h3] + [h4] == [h1, h2, h3, h4];
  }

  /** Where the middle of a three-part concatenation sits, and the characters
      on either side of it. */
  lemma Middle(x: string, m: string, y: string)
    ensures var p := x + m + y;
      && p[..|x|] == x && OccursAt(p, m, |x|) && p[|x| + |m|..] == y
      && (|x| > 0 ==> p[|x| - 1] == x[|x| - 1])
      && (|y| > 0 ==> p[|x| + |m|] == y[0])
  {
    var p := x + m + y;
    assert p[|x|..|x| + |m|] == m;
  }

  // ---- Decimal numerals -------------------------------------------------

  predicate IsDigit(c: char) {
    '0' <= c <= '9'
  }

  predicate AllDigits(s: string) {
    forall i :: 0 <= i < |s| ==> IsDigit(s[i])
  }

  function DigitChar(d: nat): (c: char)
    requires d < 10
    ensures IsDigit(c)
  {
    (48 + d) as char
  }

  function DigitValue(c: char): (d: nat)
    requires IsDigit(c)
    ensures d < 10 && DigitChar(d) == c
  {
    (c as int - 48) as nat
  }

  /** `n.toString()` for a non-negative integer: its decimal numeral, no
      leading zeros (exact for the safe integers the client produces). */
  function DecimalString(n: nat): (r: string)
    decreases n
    ensures 1 <= |r| && AllDigits(r)
  {
    if n < 10 then [DigitChar(n)] else DecimalString(n / 10) + [DigitChar(n % 10)]
  }

  /** The value of a string of decimal digits (the empty string reads as 0). */
  function ParseDecimal(s: string): nat
    requires AllDigits(s)
  {
    if s == [] then 0 else 10 * ParseDecimal(s[..|s| - 1]) + DigitValue(s[|s| - 1])
  }

  /** `s.padStart(target, fill)` with a one-character `fill`. */
  function PadStart(s: string, target: nat, fill: char): string {
    if |s| >= target then s else seq(target - |s|, _ => fill) + s
  }

  /** Printing then parsing a natural number gives it back. */
  lemma {:induction false} ParseDecimalString(n: nat)
    decreases n
    ensures ParseDecimal(DecimalString(n)) == n
  {
    var r := DecimalString(n);
    if n >= 10 {
      ParseDecimalString(n / 10);
      assert r[..|r| - 1] == DecimalString(n / 10);
    }
  }

  /** Leading zeros do not change the value of a numeral. */
  lemma {:induction false} ParseLeadingZeros(k: nat, s: string)
    requires AllDigits(s)
    decreases |s|
    ensures AllDigits(seq(k, _ => '0') + s)
    ensures ParseDecimal(seq(k, _ => '0') + s) == ParseDecimal(s)
  {
    var z := seq(k, _ => '0');
    var t := z + s;
    if s == [] {
      assert t == z;
      ParseZeros(k);
    } else {
      ParseLeadingZeros(k, s[..|s| - 1]);
      assert t[..|t| - 1] == z + s[..|s| - 1];
    }
  }

  lemma {:induction false} ParseZeros(k: nat)
    ensures AllDigits(seq(k, _ => '0'))
    ensures ParseDecimal(seq(k, _ => '0')) == 0
  {
    if k > 0 {
      ParseZeros(k - 1);
      assert seq(k, _ => '0')[..k - 1] == seq(k - 1, _ => '0');
    }
  }

  /** A numeral has more than two digits exactly when its value is at least 100. */
  lemma {:induction false} DecimalStringLength(n: nat)
    decreases n
    ensures |DecimalString(n)| <= 2 <==> n < 100
    ensures |DecimalString(n)| == 1 <==> n < 10
  {
    if n >= 10 {
      DecimalStringLength(n / 10);
    }
  }
}
