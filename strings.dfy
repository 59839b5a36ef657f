/** String operations with the JavaScript semantics the query code relies on:
    String.prototype.trim, split and join on one separator, toLowerCase and
    toUpperCase (ASCII letters), the `/  +/g` space collapse, number formatting
    and parseInt on a run of decimal digits. */
module Strings {

  /** The characters String.prototype.trim removes: white space and line terminators. */
  predicate IsSpace(c: char)
  {
    c == ' ' || c == '\t' || c == '\n' || c == '\r' || c == '\U{000B}' || c == '\U{000C}'
    || c == '\U{00A0}' || c == '\U{1680}' || ('\U{2000}' <= c <= '\U{200A}')
    || c == '\U{2028}' || c == '\U{2029}' || c == '\U{202F}' || c == '\U{205F}'
    || c == '\U{3000}' || c == '\U{FEFF}'
  }

  predicate IsBlank(s: string)
  {
    forall i | 0 <= i < |s| :: IsSpace(s[i])
  }

  /** Number of leading trim-able characters. */
  function LeadCount(s: string): (k: nat)
    ensures k <= |s|
    ensures forall m | 0 <= m < k :: IsSpace(s[m])
    ensures k < |s| ==> !IsSpace(s[k])
  {
    if s == [] || !IsSpace(s[0]) then 0
    else
      var k := 1 + LeadCount(s[1..]);
      assert forall m | 1 <= m < |s| :: s[m] == s[1..][m - 1];
      k
  }

  /** Number of trailing trim-able characters. */
  function TrailCount(s: string): (k: nat)
    ensures k <= |s|
    ensures forall m | |s| - k <= m < |s| :: IsSpace(s[m])
    ensures k < |s| ==> !IsSpace(s[|s| - k - 1])
  {
    if s == [] || !IsSpace(s[|s| - 1]) then 0
    else
      var k := 1 + TrailCount(s[..|s| - 1]);
      assert forall m | 0 <= m < |s| - 1 :: s[m] == s[..|s| - 1][m];
      k
  }

  /** Where String.prototype.trim cuts: after the leading and before the
      trailing white space. */
  function TrimBounds(s: string): (p: (nat, nat))
    ensures p.0 <= p.1 <= |s|
  {
    var i := LeadCount(s);
    (i, |s| - TrailCount(s[i..]))
  }

  /** Only white space lies outside the bounds, and the bounds hold no white
      space at their ends. */
  lemma TrimBoundsBlank(s: string)
    ensures forall k | 0 <= k < TrimBounds(s).0 :: IsSpace(s[k])
    ensures forall k | TrimBounds(s).1 <= k < |s| :: IsSpace(s[k])
    ensures TrimBounds(s).0 < TrimBounds(s).1 ==>
              !IsSpace(s[TrimBounds(s).0]) && !IsSpace(s[TrimBounds(s).1 - 1])
    ensures TrimBounds(s).0 == TrimBounds(s).1 ==> TrimBounds(s).1 == |s|
  {
    var i := LeadCount(s);
    var rest := s[i..];
    var k := TrailCount(rest);
    var j := |s| - k;
    forall m | j <= m < |s| ensures IsSpace(s[m]) {
      assert s[m] == rest[m - i];
    }
    if k < |rest| {
      assert s[j - 1] == rest[|rest| - k - 1];
    }
    if i < |s| {
      assert s[i] == rest[0];
    }
  }

  /** String.prototype.trim: drops white space at both ends and nothing else. */
  function Trim(s: string): (r: string)
    ensures r == [] || (!IsSpace(r[0]) && !IsSpace(r[|r| - 1]))
    ensures r == [] <==> IsBlank(s)
  {
    var p := TrimBounds(s);
    TrimBoundsBlank(s);
    s[p.0..p.1]
  }

  predicate IsUpperAscii(c: char) { 'A' <= c <= 'Z' }
  predicate IsLowerAscii(c: char) { 'a' <= c <= 'z' }

  function LowerChar(c: char): char
  {
    if IsUpperAscii(c) then (c as int + 32) as char else c
  }

  function UpperChar(c: char): char
  {
    if IsLowerAscii(c) then (c as int - 32) as char else c
  }

  /** String.prototype.toLowerCase, restricted to ASCII letters. */
  function Lower(s: string): string
  {
    seq(|s|, i requires 0 <= i < |s| => LowerChar(s[i]))
  }

  /** String.prototype.toUpperCase, restricted to ASCII letters. */
  function Upper(s: string): string
  {
    seq(|s|, i requires 0 <= i < |s| => UpperChar(s[i]))
  }

  function LowerAll(ss: seq<string>): seq<string>
  {
    seq(|ss|, i requires 0 <= i < |ss| => Lower(ss[i]))
  }

  lemma InLowerAll(x: string, ss: seq<string>)
    ensures x in LowerAll(ss) <==> exists k | 0 <= k < |ss| :: Lower(ss[k]) == x
  {
    if x in LowerAll(ss) {
      var k :| 0 <= k < |ss| && LowerAll(ss)[k] == x;
    }
    if exists k | 0 <= k < |ss| :: Lower(ss[k]) == x {
      var k :| 0 <= k < |ss| && Lower(ss[k]) == x;
      assert LowerAll(ss)[k] == x;
    }
  }

  /** Number of occurrences of `c` in `s`. */
  function Count(s: string, c: char): nat
  {
    if s == [] then 0 else (if s[0] == c then 1 else 0) + Count(s[1..], c)
  }

  lemma {:induction false} CountAppend(a: string, b: string, c: char)
    ensures Count(a + b, c) == Count(a, c) + Count(b, c)
  {
    if a == [] {
      assert a + b == b;
    } else {
      assert (a + b)[0] == a[0] && (a + b)[1..] == a[1..] + b;
      CountAppend(a[1..], b, c);
    }
  }

  lemma CountCons(x: char, rest: string)
    ensures forall c :: Count([x] + rest, c) == (if x == c then 1 else 0) + Count(rest, c)
  {
    assert ([x] + rest)[1..] == rest;
  }

  lemma {:induction false} CountAbsent(s: string, c: char)
    requires c !in s
    ensures Count(s, c) == 0
  {
    if s != [] {
      assert s[0] != c;
      CountAbsent(s[1..], c);
    }
  }

  lemma {:induction false} CountBlank(s: string, c: char)
    requires IsBlank(s) && !IsSpace(c)
    ensures Count(s, c) == 0
  {
    if s != [] {
      CountBlank(s[1..], c);
    }
  }

  /** Trimming keeps every occurrence of a character that is not white space. */
  lemma TrimKeepsCount(s: string, c: char)
    requires !IsSpace(c)
    ensures Count(Trim(s), c) == Count(s, c)
  {
    var p := TrimBounds(s);
    TrimBoundsBlank(s);
    var i, j := p.0, p.1;
    assert Trim(s) == s[i..j];
    assert s == s[..i] + s[i..j] + s[j..];
    CountAppend(s[..i] + s[i..j], s[j..], c);
    CountAppend(s[..i], s[i..j], c);
    forall m | 0 <= m < i ensures IsSpace(s[..i][m]) {
      assert s[..i][m] == s[m];
    }
    forall m | 0 <= m < |s| - j ensures IsSpace(s[j..][m]) {
      assert s[j..][m] == s[j + m];
    }
    CountBlank(s[..i], c);
    CountBlank(s[j..], c);
  }

  /** Sum of the occurrence counts over a list of strings. */
  function CountAll(parts: seq<string>, c: char): nat
  {
    if parts == [] then 0 else Count(parts[0], c) + CountAll(parts[1..], c)
  }

  lemma {:induction false} CountAllAppend(a: seq<string>, b: seq<string>, c: char)
    ensures CountAll(a + b, c) == CountAll(a, c) + CountAll(b, c)
  {
    if a == [] {
      assert a + b == b;
    } else {
      assert (a + b)[0] == a[0] && (a + b)[1..] == a[1..] + b;
      CountAllAppend(a[1..], b, c);
    }
  }

  /** Array.prototype.join for an array of strings. */
  function Join(parts: seq<string>, sep: string): string
  {
    if |parts| == 0 then ""
    else if |parts| == 1 then parts[0]
    else parts[0] + sep + Join(parts[1..], sep)
  }

  /** A separator free of `c` adds no occurrence of `c`: join keeps the parts' count. */
  lemma {:induction false} CountJoin(parts: seq<string>, sep: string, c: char)
    requires Count(sep, c) == 0
    ensures Count(Join(parts, sep), c) == CountAll(parts, c)
  {
    if |parts| == 1 {
      assert parts[1..] == [];
    } else if |parts| > 1 {
      CountJoin(parts[1..], sep, c);
      CountAppend(parts[0] + sep, Join(parts[1..], sep), c);
      CountAppend(parts[0], sep, c);
    }
  }

  /** Each part followed by one space. */
  function Spaced(parts: seq<string>): string
  {
    if parts == [] then "" else parts[0] + " " + Spaced(parts[1..])
  }

  lemma {:induction false} SpacedAppend(a: seq<string>, b: seq<string>)
    ensures Spaced(a + b) == Spaced(a) + Spaced(b)
  {
    if a == [] {
      assert a + b == b;
    } else {
      assert (a + b)[0] == a[0] && (a + b)[1..] == a[1..] + b;
      SpacedAppend(a[1..], b);
    }
  }

  /** Each part followed by a space is the parts joined by spaces, and one more. */
  lemma {:induction false} SpacedJoin(parts: seq<string>)
    requires parts != []
    ensures Spaced(parts) == Join(parts, " ") + " "
  {
    if |parts| == 1 {
      assert parts[1..] == [];
    } else {
      SpacedJoin(parts[1..]);
    }
  }

  lemma {:induction false} JoinSnoc(parts: seq<string>, x: string, sep: string)
    requires parts != []
    ensures Join(parts + [x], sep) == Join(parts, sep) + sep + x
  {
    var ps := parts + [x];
    if |parts| == 1 {
      assert ps[1..] == [x];
    } else {
      assert ps[1..] == parts[1..] + [x];
      JoinSnoc(parts[1..], x, sep);
    }
  }

  /** The last character of a join is the last character of its last part. */
  lemma {:induction false} JoinEndsWith(parts: seq<string>, sep: string, c: char)
    requires parts != [] && parts[|parts| - 1] != [] && parts[|parts| - 1][|parts[|parts| - 1]| - 1] == c
    ensures Join(parts, sep) != [] && Join(parts, sep)[|Join(parts, sep)| - 1] == c
  {
    if |parts| > 1 {
      JoinEndsWith(parts[1..], sep, c);
    }
  }

  /** String.prototype.split with a one-character separator. */
  function Split(s: string, c: char): (r: seq<string>)
    ensures |r| == Count(s, c) + 1
    ensures forall k | 0 <= k < |r| :: c !in r[k]
  {
    if s == [] then [""]
    else if s[0] == c then [""] + Split(s[1..], c)
    else
      var rest := Split(s[1..], c);
      [[s[0]] + rest[0]] + rest[1..]
  }

  /** Joining the pieces of a split with the same separator gives back the string. */
  lemma {:induction false} JoinSplit(s: string, c: char)
    ensures Join(Split(s, c), [c]) == s
  {
    if s != [] {
      var rest := Split(s[1..], c);
      JoinSplit(s[1..], c);
      if s[0] == c {
        assert Split(s, c) == [""] + rest;
        assert (([""] + rest)[1..]) == rest;
      } else {
        var r := Split(s, c);
        assert r == [[s[0]] + rest[0]] + rest[1..];
        if |rest| == 1 {
          assert Join(rest, [c]) == rest[0];
        } else {
          assert r[1..] == rest[1..];
          assert Join(rest, [c]) == rest[0] + [c] + Join(rest[1..], [c]);
        }
      }
    }
  }

  /** Splitting the join of separator-free pieces gives the pieces back. */
  lemma {:induction false} SplitJoin(parts: seq<string>, c: char)
    requires |parts| >= 1
    requires forall k | 0 <= k < |parts| :: c !in parts[k]
    ensures Split(Join(parts, [c]), c) == parts
  {
    if |parts| == 1 {
      SplitNoSeparator(parts[0], c);
    } else {
      SplitJoin(parts[1..], c);
      SplitPrefix(parts[0], Join(parts[1..], [c]), c);
    }
  }

  lemma {:induction false} SplitNoSeparator(s: string, c: char)
    requires c !in s
    ensures Split(s, c) == [s]
  {
    if s != [] {
      SplitNoSeparator(s[1..], c);
      assert [s[0]] + s[1..] == s;
    }
  }

  lemma {:induction false} SplitPrefix(p: string, rest: string, c: char)
    requires c !in p
    ensures Split(p + [c] + rest, c) == [p] + Split(rest, c)
  {
    if p == [] {
      assert p + [c] + rest == [c] + rest;
      assert ([c] + rest)[1..] == rest;
    } else {
      assert (p + [c] + rest)[0] == p[0] && (p + [c] + rest)[1..] == p[1..] + [c] + rest;
      SplitPrefix(p[1..], rest, c);
      assert [p[0]] + p[1..] == p;
    }
  }

  predicate NoDoubleSpace(s: string)
  {
    forall i | 0 <= i < |s| - 1 :: !(s[i] == ' ' && s[i + 1] == ' ')
  }

  /** String.prototype.replace(/  +/g, " "): every run of two or more spaces becomes one. */
  function CollapseSpaces(s: string): (r: string)
    ensures NoDoubleSpace(r)
    ensures |s| > 0 ==> |r| > 0 && r[0] == s[0] && r[|r| - 1] == s[|s| - 1]
    ensures forall c | c != ' ' :: Count(r, c) == Count(s, c)
  {
    if |s| < 2 then s
    else if s[0] == ' ' && s[1] == ' ' then CollapseSpaces(s[1..])
    else
      var rest := CollapseSpaces(s[1..]);
      CountCons(s[0], rest);
      [s[0]] + rest
  }

  /** A string without a double space is left alone by the collapse. */
  lemma {:induction false} CollapseNoDoubleSpace(s: string)
    requires NoDoubleSpace(s)
    ensures CollapseSpaces(s) == s
  {
    if |s| >= 2 {
      assert !(s[0] == ' ' && s[1] == ' ');
      CollapseNoDoubleSpace(s[1..]);
    }
  }

  /** `w` occurs in `s` at position `j`. */
  predicate OccursAt(s: string, j: int, w: string)
  {
    0 <= j && j + |w| <= |s| && s[j..j + |w|] == w
  }

  /** `w` occurs in `s` at some position. */
  predicate Contains(s: string, w: string)
  {
    exists j | 0 <= j <= |s| :: OccursAt(s, j, w)
  }

  /** A leading word without spaces survives the collapse. */
  lemma {:induction false} CollapseKeepsPrefix(s: string, w: string)
    requires |w| <= |s| && s[..|w|] == w && ' ' !in w
    ensures |w| <= |CollapseSpaces(s)| && CollapseSpaces(s)[..|w|] == w
  {
    if w != [] && |s| >= 2 {
      assert s[0] == w[0];
      assert s[1..][..|w| - 1] == w[1..];
      CollapseKeepsPrefix(s[1..], w[1..]);
      assert CollapseSpaces(s) == [s[0]] + CollapseSpaces(s[1..]);
    }
  }

  lemma OccursInTail(s: string, i: nat, w: string)
    requires 0 < i && OccursAt(s, i, w)
    ensures OccursAt(s[1..], i - 1, w)
  {
    assert s[1..][i - 1..i - 1 + |w|] == s[i..i + |w|];
  }

  lemma OccursUnderCons(x: char, s: string, j: int, w: string)
    requires OccursAt(s, j, w)
    ensures OccursAt([x] + s, j + 1, w)
  {
    assert ([x] + s)[j + 1..j + 1 + |w|] == s[j..j + |w|];
  }

  /** A word without spaces survives the collapse wherever it occurs. */
  lemma {:induction false} CollapseKeepsWord(s: string, i: nat, w: string)
    requires OccursAt(s, i, w) && ' ' !in w
    ensures Contains(CollapseSpaces(s), w)
  {
    var r := CollapseSpaces(s);
    if i == 0 {
      assert s[..|w|] == w;
      CollapseKeepsPrefix(s, w);
      assert OccursAt(r, 0, w);
    } else if |s| >= 2 {
      OccursInTail(s, i, w);
      CollapseKeepsWord(s[1..], i - 1, w);
      var rest := CollapseSpaces(s[1..]);
      var j :| 0 <= j <= |rest| && OccursAt(rest, j, w);
      if s[0] == ' ' && s[1] == ' ' {
        assert r == rest;
        assert OccursAt(r, j, w);
      } else {
        assert r == [s[0]] + rest;
        OccursUnderCons(s[0], rest, j, w);
      }
    } else {
      assert w == [];
      assert OccursAt(r, 0, w);
    }
  }

  lemma TrimKeepsWord(s: string, i: nat, w: string)
    requires i + |w| <= |s| && s[i..i + |w|] == w && w != []
    requires forall k | 0 <= k < |w| :: !IsSpace(w[k])
    ensures Contains(Trim(s), w)
  {
    var p := TrimBounds(s);
    TrimBoundsBlank(s);
    var a, b := p.0, p.1;
    var last := i + |w| - 1;
    assert s[i] == w[0] && s[last] == w[|w| - 1];
    assert !IsSpace(s[i]) && !IsSpace(s[last]);
    assert a <= i;
    assert last < b;
    var t := Trim(s);
    assert t == s[a..b];
    forall k | 0 <= k < |w| ensures t[i - a..i - a + |w|][k] == w[k] {
      assert s[i..i + |w|][k] == s[i + k];
    }
    assert t[i - a..i - a + |w|] == w;
    assert OccursAt(t, i - a, w);
  }

  predicate IsDigit(c: char) { '0' <= c <= '9' }

  predicate AllDigits(s: string)
  {
    forall i | 0 <= i < |s| :: IsDigit(s[i])
  }

  function DigitChar(d: nat): char
    requires d < 10
  {
    ('0' as int + d) as char
  }

  /** Decimal rendering of a natural number. */
  function NatToString(n: nat): (r: string)
    ensures |r| > 0 && AllDigits(r)
    decreases n
  {
    if n < 10 then [DigitChar(n)] else NatToString(n / 10) + [DigitChar(n % 10)]
  }

  /** `${n}` for an integral JavaScript number. */
  function IntToString(n: int): (r: string)
    ensures |r| > 0
    ensures forall i | 0 <= i < |r| :: IsDigit(r[i]) || r[i] == '-'
  {
    if n < 0 then "-" + NatToString(-n) else NatToString(n)
  }

  /** parseInt of a string made of decimal digits. */
  function DigitsValue(s: string): nat
    requires AllDigits(s)
  {
    if s == [] then 0 else 10 * DigitsValue(s[..|s| - 1]) + (s[|s| - 1] as int - '0' as int)
  }

  /** parseInt reads back the decimal rendering of a number. */
  lemma {:induction false} DigitsValueOfNatToString(n: nat)
    ensures DigitsValue(NatToString(n)) == n
    decreases n
  {
    if n >= 10 {
      var s := NatToString(n);
      assert s[..|s| - 1] == NatToString(n / 10);
      DigitsValueOfNatToString(n / 10);
    }
  }
}
