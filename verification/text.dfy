/** The optional-value wrapper used throughout the model: `None` stands for
    Python's `None` result or for an exception the caller catches. */
module Optional {

  datatype Option<+T> = None | Some(value: T)
}

/** The handful of Python `str` operations the scripts rely on, over `string`
    (a sequence of code points): `strip`, `split()`, `split(sep)`, `join`,
    `startswith`, `in`, `str(int)` and `int(str)`. */
module Text {
  import opened Optional

  /** `c.isspace()`: the code points Python treats as whitespace for
      `strip()` and `split()`. */
  predicate IsSpace(c: char) {
    var k := c as int;
    || k == 32 || 9 <= k <= 13 || 28 <= k <= 31
    || k == 0x85 || k == 0xA0 || k == 0x1680 || 0x2000 <= k <= 0x200A
    || k == 0x2028 || k == 0x2029 || k == 0x202F || k == 0x205F || k == 0x3000
  }

  predicate IsDigit(c: char) {
    '0' <= c <= '9'
  }

  predicate AllDigits(s: string) {
    forall k | 0 <= k < |s| :: IsDigit(s[k])
  }

  predicate StartsWith(s: string, prefix: string) {
    |prefix| <= |s| && s[..|prefix|] == prefix
  }

  predicate EndsWith(s: string, suffix: string) {
    |suffix| <= |s| && s[|s| - |suffix|..] == suffix
  }

  /** `pat` occurs in `s` starting at index `i`. */
  predicate OccursAt(s: string, pat: string, i: int) {
    0 <= i && i + |pat| <= |s| && s[i..i + |pat|] == pat
  }

  // ---------------------------------------------------------------------
  // strip()

  /** `s.lstrip()` */
  function TrimStart(s: string): (r: string)
    ensures |r| <= |s| && r == s[|s| - |r|..]
    ensures forall k | 0 <= k < |s| - |r| :: IsSpace(s[k])
    ensures r == [] || !IsSpace(r[0])
  {
    if |s| > 0 && IsSpace(s[0]) then TrimStart(s[1..]) else s
  }

  /** `s.rstrip()` */
  function TrimEnd(s: string): (r: string)
    ensures |r| <= |s| && r == s[..|r|]
    ensures forall k | |r| <= k < |s| :: IsSpace(s[k])
    ensures r == [] || !IsSpace(r[|r| - 1])
  {
    if |s| > 0 && IsSpace(s[|s| - 1]) then TrimEnd(s[..|s| - 1]) else s
  }

  /** `s.strip()`: the result has no whitespace at either end, and it is
      empty exactly when `s` is all whitespace. */
  function Strip(s: string): (r: string)
    ensures |r| <= |s|
    ensures r == [] || (!IsSpace(r[0]) && !IsSpace(r[|r| - 1]))
    ensures r == [] <==> forall k | 0 <= k < |s| :: IsSpace(s[k])
  {
    var t := TrimStart(s);
    var r := TrimEnd(t);
    r
  }

  // ---------------------------------------------------------------------
  // split() with no argument: runs of whitespace separate non-empty words

  predicate IsWord(w: string) {
    |w| > 0 && forall k | 0 <= k < |w| :: !IsSpace(w[k])
  }

  /** Length of the longest whitespace-free prefix of `s`. */
  function WordLength(s: string): (n: nat)
    ensures n <= |s|
    ensures forall k | 0 <= k < n :: !IsSpace(s[k])
    ensures n == |s| || IsSpace(s[n])
  {
    if |s| == 0 || IsSpace(s[0]) then 0 else 1 + WordLength(s[1..])
  }

  /** `s.split()` */
  function Words(s: string): (ws: seq<string>)
    ensures forall w | w in ws :: IsWord(w)
    decreases |s|
  {
    var t := TrimStart(s);
    if t == [] then []
    else
      var n := WordLength(t);
      var w := t[..n];
      assert forall k | 0 <= k < n :: w[k] == t[k];
      [w] + Words(t[n..])
  }

  lemma {:induction false} WordLengthOfPrefix(w: string, rest: string)
    requires forall k | 0 <= k < |w| :: !IsSpace(w[k])
    requires rest == [] || IsSpace(rest[0])
    ensures WordLength(w + rest) == |w|
    decreases |w|
  {
    if |w| > 0 {
      assert (w + rest)[1..] == w[1..] + rest;
      WordLengthOfPrefix(w[1..], rest);
    } else {
      assert w + rest == rest;
    }
  }

  lemma WordsSkipsLeadingSpace(c: char, s: string)
    requires IsSpace(c)
    ensures Words([c] + s) == Words(s)
  {
    assert ([c] + s)[1..] == s;
    assert TrimStart([c] + s) == TrimStart(s);
  }

  /** `" ".join(ws).split()` gives back `ws` when every element is a word. */
  lemma {:induction false} WordsOfJoin(ws: seq<string>)
    requires forall k | 0 <= k < |ws| :: IsWord(ws[k])
    ensures Words(Join(" ", ws)) == ws
  {
    if |ws| == 0 {
    } else {
      var w := ws[0];
      var rest := if |ws| == 1 then [] else " " + Join(" ", ws[1..]);
      var s := w + rest;
      assert Join(" ", ws) == s;
      assert TrimStart(s) == s;
      WordLengthOfPrefix(w, rest);
      assert s[..|w|] == w;
      assert s[|w|..] == rest;
      if |ws| > 1 {
        WordsSkipsLeadingSpace(' ', Join(" ", ws[1..]));
        WordsOfJoin(ws[1..]);
      }
      assert ws == [w] + ws[1..];
    }
  }

  // ---------------------------------------------------------------------
  // join / find / split(sep)

  /** `sep.join(xs)` */
  function Join(sep: string, xs: seq<string>): (r: string)
    ensures |xs| == 0 ==> r == []
    ensures |xs| > 0 ==> StartsWith(r, xs[0])
  {
    if |xs| == 0 then []
    else if |xs| == 1 then xs[0]
    else xs[0] + sep + Join(sep, xs[1..])
  }

  /** The first index at or after `i` where `pat` occurs. */
  function IndexFrom(s: string, pat: string, i: nat): (r: Option<nat>)
    ensures r.Some? ==> i <= r.value && OccursAt(s, pat, r.value)
    ensures r.Some? ==> forall j | i <= j < r.value :: !OccursAt(s, pat, j)
    ensures r.None? ==> forall j | i <= j :: !OccursAt(s, pat, j)
    decreases |s| - i
  {
    if OccursAt(s, pat, i) then Some(i)
    else if i >= |s| then None
    else IndexFrom(s, pat, i + 1)
  }

  /** `s.find(pat)`, with `None` for -1: the first index where `pat` occurs. */
  function IndexOf(s: string, pat: string): (r: Option<nat>)
    ensures r.Some? ==> OccursAt(s, pat, r.value)
    ensures r.Some? ==> forall j | 0 <= j < r.value :: !OccursAt(s, pat, j)
    ensures r.None? ==> forall j :: !OccursAt(s, pat, j)
  {
    IndexFrom(s, pat, 0)
  }

  /** `sub in s` */
  predicate Contains(s: string, sub: string) {
    IndexOf(s, sub).Some?
  }

  /** `s.split(sep)` for a non-empty separator: the pieces between the
      successive leftmost occurrences of `sep`. No piece contains `sep`. */
  function Split(s: string, sep: string): (parts: seq<string>)
    requires |sep| > 0
    ensures |parts| > 0
    ensures forall p | p in parts :: !Contains(p, sep)
    decreases |s|
  {
    match IndexOf(s, sep)
    case None => [s]
    case Some(i) =>
      var head := s[..i];
      assert !Contains(head, sep) by {
        if IndexOf(head, sep).Some? {
          var j := IndexOf(head, sep).value;
          assert s[j..j + |sep|] == head[j..j + |sep|];
          assert OccursAt(s, sep, j);
        }
      }
      [head] + Split(s[i + |sep|..], sep)
  }

  /** Joining the pieces of a split with the same separator gives back the
      original string. */
  lemma {:induction false} JoinSplit(s: string, sep: string)
    requires |sep| > 0
    ensures Join(sep, Split(s, sep)) == s
    decreases |s|
  {
    match IndexOf(s, sep)
    case None =>
    case Some(i) =>
      var rest := s[i + |sep|..];
      JoinSplit(rest, sep);
      var parts := Split(rest, sep);
      assert Split(s, sep) == [s[..i]] + parts;
      assert s == s[..i] + sep + rest;
  }

  /** The single-character separator `c` is found right after a prefix that
      does not contain it. */
  lemma {:induction false} IndexOfAfterFree(x: string, c: char, y: string)
    requires c !in x
    ensures IndexOf(x + [c] + y, [c]) == Some(|x|)
  {
    var s := x + [c] + y;
    assert OccursAt(s, [c], |x|) by {
      assert s[|x|..|x| + 1] == [c];
    }
    forall j | 0 <= j < |x| ensures !OccursAt(s, [c], j) {
      assert s[j..j + 1] == [x[j]];
    }
  }

  lemma {:induction false} IndexOfAbsent(x: string, c: char)
    requires c !in x
    ensures IndexOf(x, [c]) == None
  {
    forall j | 0 <= j < |x| ensures !OccursAt(x, [c], j) {
      assert x[j..j + 1] == [x[j]];
    }
  }

  /** A piece of a split holds only characters of the split string. */
  lemma {:induction false} SplitAvoids(s: string, sep: string, c: char)
    requires |sep| > 0 && c !in s
    ensures forall p | p in Split(s, sep) :: c !in p
    decreases |s|
  {
    match IndexOf(s, sep)
    case None =>
    case Some(i) =>
      assert c !in s[i + |sep|..];
      SplitAvoids(s[i + |sep|..], sep, c);
  }

  /** A character that occurs in `s` is found by `in`. */
  lemma ContainsChar(s: string, c: char)
    requires c in s
    ensures Contains(s, [c])
  {
    var j :| 0 <= j < |s| && s[j] == c;
    assert s[j..j + 1] == [c];
    assert OccursAt(s, [c], j);
  }

  /** A join holds only characters of its pieces and its separator. */
  lemma {:induction false} JoinAvoids(c: char, sep: string, xs: seq<string>)
    requires c !in sep
    requires forall k | 0 <= k < |xs| :: c !in xs[k]
    ensures c !in Join(sep, xs)
    decreases |xs|
  {
    if |xs| > 1 {
      JoinAvoids(c, sep, xs[1..]);
    }
  }

  lemma {:induction false} JoinEndsWith(sep: string, xs: seq<string>)
    requires |xs| > 0
    ensures EndsWith(Join(sep, xs), xs[|xs| - 1])
    decreases |xs|
  {
    if |xs| > 1 {
      JoinEndsWith(sep, xs[1..]);
    }
  }

  /** Joining one more piece appends the separator and the piece. */
  lemma {:induction false} JoinSnoc(sep: string, xs: seq<string>, y: string)
    requires |xs| > 0
    ensures Join(sep, xs + [y]) == Join(sep, xs) + sep + y
    decreases |xs|
  {
    if |xs| > 1 {
      assert (xs + [y])[1..] == xs[1..] + [y];
      JoinSnoc(sep, xs[1..], y);
    }
  }

  /** Splitting a join on a one-character separator that occurs in no piece
      gives back the pieces (for a non-empty list: `"".split(";")` is
      `[""]`, not `[]`). */
  lemma {:induction false} SplitJoin(c: char, xs: seq<string>)
    requires |xs| > 0
    requires forall k | 0 <= k < |xs| :: c !in xs[k]
    ensures Split(Join([c], xs), [c]) == xs
  {
    if |xs| == 1 {
      IndexOfAbsent(xs[0], c);
    } else {
      var rest := Join([c], xs[1..]);
      assert Join([c], xs) == xs[0] + [c] + rest;
      IndexOfAfterFree(xs[0], c, rest);
      assert (xs[0] + [c] + rest)[|xs[0]| + 1..] == rest;
      assert (xs[0] + [c] + rest)[..|xs[0]|] == xs[0];
      SplitJoin(c, xs[1..]);
      assert xs == [xs[0]] + xs[1..];
    }
  }

  /** `with.join(s.split(pat))`, which is what `s.replace(pat, with)` computes. */
  function ReplaceAll(s: string, pat: string, with: string): (r: string)
    requires |pat| > 0
    ensures !Contains(s, pat) ==> r == s
  {
    var parts := Split(s, pat);
    assert !Contains(s, pat) ==> parts == [s];
    Join(with, parts)
  }

  // ---------------------------------------------------------------------
  // str(n) and int(s)

  function DigitChar(d: nat): (c: char)
    requires d < 10
    ensures IsDigit(c) && (c as int) - ('0' as int) == d
  {
    (('0' as int) + d) as char
  }

  function DigitValue(c: char): (d: nat)
    requires IsDigit(c)
    ensures d < 10 && DigitChar(d) == c
  {
    (c as int) - ('0' as int)
  }

  /** The number a string of decimal digits denotes. */
  function DigitsValue(s: string): nat
    requires AllDigits(s)
  {
    if s == [] then 0 else DigitsValue(s[..|s| - 1]) * 10 + DigitValue(s[|s| - 1])
  }

  /** `str(n)` for a non-negative integer: decimal digits, no leading zero. */
  function NatToString(n: nat): (s: string)
    ensures |s| > 0 && AllDigits(s)
    ensures s[0] == '0' ==> n == 0
  {
    if n < 10 then [DigitChar(n)] else NatToString(n / 10) + [DigitChar(n % 10)]
  }

  /** A non-empty run of decimal digits, read as a number. */
  function ParseNat(s: string): (r: Option<nat>)
    ensures r.Some? <==> |s| > 0 && AllDigits(s)
  {
    if |s| > 0 && AllDigits(s) then Some(DigitsValue(s)) else None
  }

  /** Reading back what `str(n)` wrote gives `n`. */
  lemma {:induction false} ParseNatToString(n: nat)
    ensures ParseNat(NatToString(n)) == Some(n)
    decreases n
  {
    var s := NatToString(n);
    if n >= 10 {
      ParseNatToString(n / 10);
      var p := NatToString(n / 10);
      assert s[..|s| - 1] == p;
      assert DigitValue(s[|s| - 1]) == n % 10;
    } else {
      assert s == [DigitChar(n)];
      assert s[..|s| - 1] == [];
      assert DigitsValue(s) == DigitValue(s[0]);
    }
  }

  /** `str(n)` is injective. */
  lemma NatToStringInjective(m: nat, n: nat)
    requires NatToString(m) == NatToString(n)
    ensures m == n
  {
    ParseNatToString(m);
    ParseNatToString(n);
  }

  /** `int(s)` for the decimal forms the scripts meet: surrounding whitespace
      is ignored, one optional sign, then decimal digits. */
  function ParseInt(s: string): (r: Option<int>)
    ensures r.Some? ==> Strip(s) != []
  {
    var t := Strip(s);
    if |t| > 0 && (t[0] == '-' || t[0] == '+') then
      match ParseNat(t[1..])
      case None => None
      case Some(n) =>
        var v: int := if t[0] == '-' then -(n as int) else n as int;
        Some(v)
    else
      match ParseNat(t)
      case None => None
      case Some(n) => Some(n)
  }

  // ---------------------------------------------------------------------
  // ASCII case mapping

  function UpperChar(c: char): char {
    if 'a' <= c <= 'z' then ((c as int) - 32) as char else c
  }

  function LowerChar(c: char): char {
    if 'A' <= c <= 'Z' then ((c as int) + 32) as char else c
  }

  /** `s.upper()` */
  function Upper(s: string): (r: string)
    ensures |r| == |s|
    ensures forall k | 0 <= k < |s| :: r[k] == UpperChar(s[k])
  {
    seq(|s|, k requires 0 <= k < |s| => UpperChar(s[k]))
  }

  /** `s.lower()` */
  function Lower(s: string): (r: string)
    ensures |r| == |s|
    ensures forall k | 0 <= k < |s| :: r[k] == LowerChar(s[k])
  {
    seq(|s|, k requires 0 <= k < |s| => LowerChar(s[k]))
  }
}
