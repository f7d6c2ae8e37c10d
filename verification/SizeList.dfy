/**
 Size lists and touch positions as parameter strings: printed with snprintf,
 read back with strtol.  A C string is a sequence of characters other than NUL;
 reading at its end gives NUL.
 */
module SizeLists {

  const BufferSize: nat := 32

  type int32 = n: int | -0x8000_0000 <= n < 0x8000_0000

  datatype Size = Size(width: int32, height: int32)

  // ----- printing ----------------------------------------------------------------

  function Digit(d: nat): char
    requires d < 10
  {
    ['0', '1', '2', '3', '4', '5', '6', '7', '8', '9'][d]
  }

  function Digits(n: nat): string {
    if n < 10 then [Digit(n)] else Digits(n / 10) + [Digit(n % 10)]
  }

  /** %d */
  function Decimal(n: int): string { if n < 0 then "-" + Digits(-n) else Digits(n) }

  function Pair(a: int32, b: int32): string { Decimal(a) + "x" + Decimal(b) }

  /** snprintf keeps what fits into the buffer with its terminating NUL. */
  function Fitted(s: string): string { if |s| < BufferSize then s else s[..BufferSize - 1] }

  /** The list as it should look. */
  function Joined(sizes: seq<Size>): string
    decreases |sizes|, 0
  {
    if sizes == [] then ""
    else Pair(sizes[0].width, sizes[0].height) + Tail(sizes[1..])
  }

  /** The rest of a list, with its comma. */
  function Tail(sizes: seq<Size>): string
    decreases |sizes|, 1
  {
    if sizes == [] then "" else "," + Joined(sizes)
  }

  // ----- reading ------------------------------------------------------------------

  function At(s: string, p: nat): char { if p < |s| then s[p] else '\0' }

  predicate IsSpace(c: char) { c == ' ' || '\t' <= c <= '\r' }

  predicate IsDigit(c: char) { '0' <= c <= '9' }

  function SkipSpaces(s: string, p: nat): (q: nat)
    requires p <= |s|
    ensures p <= q <= |s|
    decreases |s| - p
  {
    if p < |s| && IsSpace(s[p]) then SkipSpaces(s, p + 1) else p
  }

  function SkipDigits(s: string, p: nat): (q: nat)
    requires p <= |s|
    ensures p <= q <= |s| && forall i | p <= i < q :: IsDigit(s[i])
    decreases |s| - p
  {
    if p < |s| && IsDigit(s[p]) then SkipDigits(s, p + 1) else p
  }

  function DigitValue(c: char): nat
    requires IsDigit(c)
  {
    c as int - '0' as int
  }

  function Value(ds: string): nat
    requires forall i | 0 <= i < |ds| :: IsDigit(ds[i])
  {
    if ds == [] then 0 else 10 * Value(ds[..|ds| - 1]) + DigitValue(ds[|ds| - 1])
  }

  /** A number out of the range of a 32-bit long becomes the nearest end of the range. */
  function Clamped(n: int): int32 {
    if n < -0x8000_0000 then -0x8000_0000 else if n > 0x7fff_ffff then 0x7fff_ffff else n
  }

  /** strtol in base 10: the number and where reading stopped, at the start when there is no number. */
  function Strtol(s: string, p: nat): (r: (int32, nat))
    requires p <= |s|
    ensures p <= r.1 <= |s|
  {
    var q := SkipSpaces(s, p);
    var d := if At(s, q) == '-' || At(s, q) == '+' then q + 1 else q;
    if d > |s| then (0, p)
    else
      var e := SkipDigits(s, d);
      if e == d then (0, p)
      else
        var v: int := Value(s[d..e]);
        (Clamped(if At(s, q) == '-' then -v else v), e)
  }

  datatype Parsed = NoPair | Parsed(first: int32, second: int32, end: nat)

  /** parse_pair */
  function ParsePair(s: string, p: nat, delim: char): (r: Parsed)
    requires p <= |s| && delim != '\0'
    ensures r.Parsed? ==> p < r.end <= |s|
  {
    var (a, e) := Strtol(s, p);
    if At(s, e) != delim then NoPair
    else
      var (b, end) := Strtol(s, e + 1);
      Parsed(a, b, end)
  }

  /** The sizes read from p on, up to the first that is malformed. */
  function ParsedSizes(s: string, p: nat): seq<Size>
    requires p <= |s|
    decreases |s| - p
  {
    var r := ParsePair(s, p, 'x');
    if r.NoPair? || (At(s, r.end) != ',' && At(s, r.end) != '\0') then []
    else [Size(r.first, r.second)] + (if At(s, r.end) == '\0' then [] else ParsedSizes(s, r.end + 1))
  }

  // ----- numbers read back ----------------------------------------------------------

  lemma DigitRead(d: nat)
    requires d < 10
    ensures IsDigit(Digit(d)) && DigitValue(Digit(d)) == d
  {
  }

  predicate AllDigits(ds: string) { forall i | 0 <= i < |ds| :: IsDigit(ds[i]) }

  lemma {:induction false} DigitsRead(n: nat)
    ensures Digits(n) != [] && AllDigits(Digits(n)) && Value(Digits(n)) == n
  {
    hide Digit, IsDigit, DigitValue;
    DigitRead(n % 10);
    if n >= 10 {
      DigitsRead(n / 10);
      assert Digits(n)[..|Digits(n)| - 1] == Digits(n / 10);
    }
  }

  lemma ValueNext(ds: string, c: char)
    requires AllDigits(ds + [c])
    ensures AllDigits(ds) && IsDigit(c) && Value(ds + [c]) == 10 * Value(ds) + DigitValue(c)
  {
    assert forall i | 0 <= i < |ds| :: ds[i] == (ds + [c])[i];
    assert (ds + [c])[|ds|] == c && (ds + [c])[..|ds|] == ds;
  }

  /** Digits without a leading zero. */
  predicate Minimal(ds: string) { ds != [] && AllDigits(ds) && (ds[0] == '0' ==> |ds| == 1) }

  lemma {:induction false} DigitsMinimal(n: nat)
    ensures Minimal(Digits(n)) && (n > 0 ==> Digits(n)[0] != '0')
  {
    hide DigitValue, IsDigit, Value;
    DigitsRead(n);
    if n >= 10 {
      DigitsMinimal(n / 10);
    }
  }

  lemma DigitsNext(v: nat, c: char)
    requires IsDigit(c)
    ensures Value("") == 0
    ensures Digits(10 * v + DigitValue(c)) == if v == 0 then [c] else Digits(v) + [c]
    ensures c != '0' ==> DigitValue(c) > 0
  {
    assert Digit(DigitValue(c)) == c;
    var n := 10 * v + DigitValue(c);
    assert n / 10 == v && n % 10 == DigitValue(c);
  }

  lemma MinimalParts(ds: string) returns (init: string, c: char)
    requires Minimal(ds)
    ensures AllDigits(ds) && ds == init + [c] && IsDigit(c)
    ensures AllDigits(init) && Value(ds) == 10 * Value(init) + DigitValue(c)
    ensures init == "" || (Minimal(init) && init[0] == ds[0] && ds[0] != '0')
  {
    init, c := ds[..|ds| - 1], ds[|ds| - 1];
    assert ds == init + [c];
    ValueNext(init, c);
  }

  lemma {:induction false} MinimalIsPrinted(ds: string)
    requires Minimal(ds)
    ensures AllDigits(ds) && ds != "" && Digits(Value(ds)) == ds && (ds[0] != '0' ==> Value(ds) > 0)
    decreases |ds|
  {
    hide *;
    var init, c := MinimalParts(ds);
    DigitsNext(Value(init), c);
    if init != "" {
      MinimalIsPrinted(init);
    }
  }

  /** A number as a person would write it: a minus sign exactly when it is below zero, and no leading zero. */
  predicate Written(w: string, n: int) {
    if n < 0 then w != [] && w[0] == '-' && Minimal(w[1..]) && Value(w[1..]) == -n
    else Minimal(w) && Value(w) == n
  }

  /** Printing gives that, and nothing else is that. */
  lemma PrintedExactly(w: string, n: int)
    ensures w == Decimal(n) <==> Written(w, n)
  {
    var m := if n < 0 then -n else n;
    DigitsRead(m);
    DigitsMinimal(m);
    hide Digits, Value;
    assert ("-" + Digits(m))[1..] == Digits(m);
    if Written(w, n) {
      MinimalIsPrinted(if n < 0 then w[1..] else w);
      assert n < 0 ==> w == "-" + w[1..];
    }
  }

  lemma {:induction false} SkipsDigits(s: string, p: nat, e: nat)
    requires p <= e <= |s| && !IsDigit(At(s, e)) && forall i | p <= i < e :: IsDigit(s[i])
    ensures SkipDigits(s, p) == e
    decreases e - p
  {
    if p < e {
      SkipsDigits(s, p + 1, e);
    }
  }

  /** The string s holds w from position p on. */
  predicate Holds(s: string, p: nat, w: string) { p + |w| <= |s| && s[p..p + |w|] == w }

  lemma HoldsParts(s: string, p: nat, a: string, b: string)
    requires Holds(s, p, a + b)
    ensures Holds(s, p, a) && Holds(s, p + |a|, b)
  {
    assert a == (a + b)[..|a|] && b == (a + b)[|a|..];
  }

  lemma {:induction false} SkipsSpaces(s: string, p: nat, e: nat)
    requires p <= e <= |s| && !IsSpace(At(s, e)) && forall i | p <= i < e :: IsSpace(s[i])
    ensures SkipSpaces(s, p) == e
    decreases e - p
  {
    if p < e {
      SkipsSpaces(s, p + 1, e);
    }
  }

  predicate AllSpaces(ws: string) { forall i | 0 <= i < |ws| :: IsSpace(ws[i]) }

  predicate IsSign(c: char) { c == '-' || c == '+' }

  /** What a text holds from position p on: spaces, at most one sign, digits, and then something else. */
  predicate Spells(s: string, p: nat, ws: string, sign: string, ds: string) {
    && AllSpaces(ws) && sign in ["", "-", "+"] && AllDigits(ds)
    && Holds(s, p, ws + (sign + ds))
    && var next := At(s, p + |ws| + |sign| + |ds|);
       !IsDigit(next) && (ds == "" && sign == "" ==> !IsSpace(next) && !IsSign(next))
  }

  function Distance(a: int, b: int): nat { if a < b then b - a else a - b }

  /** No number of 32 bits is nearer than the one read. */
  lemma ClampedNearest(n: int, m: int32)
    ensures Distance(n, Clamped(n)) <= Distance(n, m)
  {
  }

  function Signed(sign: string, v: int): int { if sign == "-" then -v else v }

  lemma SpelledParts(s: string, p: nat, ws: string, sign: string, ds: string)
    requires Spells(s, p, ws, sign, ds)
    ensures var q := p + |ws|;
            var d := q + |sign|;
            && d + |ds| <= |s| && SkipSpaces(s, p) == q && (IsSign(At(s, q)) <==> sign != "")
            && (At(s, q) == '-' <==> sign == "-") && |sign| <= 1 && SkipDigits(s, d) == d + |ds| && s[d..d + |ds|] == ds
  {
    hide Value, SkipDigits, SkipSpaces;
    HoldsParts(s, p, ws, sign + ds);
    var q := p + |ws|;
    HoldsParts(s, q, sign, ds);
    var d := q + |sign|;
    var e := d + |ds|;
    forall i | d <= i < e ensures IsDigit(s[i]) {
      assert s[i] == s[d..e][i - d];
    }
    forall i | p <= i < q ensures IsSpace(s[i]) {
      assert s[i] == s[p..q][i - p];
    }
    if sign != "" {
      assert s[q] == s[q..q + 1][0];
    }
    SkipsDigits(s, d, e);
    SkipsSpaces(s, p, q);
  }

  /**
   strtol: the spaces are skipped, the digits have their value, a minus sign
   counts, a number out of range becomes the nearest end of the range, and without
   digits the answer is 0 and nothing is read.
   */
  lemma NumberSpelled(s: string, p: nat, ws: string, sign: string, ds: string)
    requires p <= |s| && Spells(s, p, ws, sign, ds)
    ensures Strtol(s, p) ==
              if ds == "" then (0, p)
              else (Clamped(Signed(sign, Value(ds))), p + |ws| + |sign| + |ds|)
  {
    hide Spells, Value, SkipDigits, SkipSpaces, Clamped, AllDigits;
    SpelledParts(s, p, ws, sign, ds);
    var q := p + |ws|;
    assert sign != "" ==> |sign| == 1;
  }

  /** A printed number that no digit follows is read back, and reading stops behind it. */
  lemma NumberRead(s: string, p: nat, n: int32)
    requires Holds(s, p, Decimal(n)) && !IsDigit(At(s, p + |Decimal(n)|))
    ensures Strtol(s, p) == (n, p + |Decimal(n)|) && |Decimal(n)| > 0
  {
    hide Digits, Value, Strtol, IsDigit;
    var m: int := n;
    var sign, ds := if m < 0 then "-" else "", Digits(if m < 0 then -m else m);
    DigitsRead(if m < 0 then -m else m);
    assert "" + (sign + ds) == Decimal(n);
    NumberSpelled(s, p, "", sign, ds);
  }

  /** A pair whose second number is missing is a pair all the same, with 0 for it. */
  lemma MissingSecondIsZero(s: string, p: nat, a: int32)
    requires Holds(s, p, Decimal(a) + "x")
    requires var next := At(s, p + |Decimal(a)| + 1); !IsDigit(next) && !IsSpace(next) && !IsSign(next)
    ensures ParsePair(s, p, 'x') == Parsed(a, 0, p + |Decimal(a)| + 1)
  {
    hide Decimal, Strtol;
    HoldsParts(s, p, Decimal(a), "x");
    var k := p + |Decimal(a)|;
    assert s[k] == s[k..k + 1][0] == 'x';
    NumberRead(s, p, a);
    NumberSpelled(s, k + 1, "", "", "");
  }

  /** So is one whose first number is missing. */
  lemma MissingFirstIsZero(s: string, p: nat, b: int32)
    requires Holds(s, p, "x" + Decimal(b)) && !IsDigit(At(s, p + 1 + |Decimal(b)|))
    ensures ParsePair(s, p, 'x') == Parsed(0, b, p + 1 + |Decimal(b)|)
  {
    HoldsParts(s, p, "x", Decimal(b));
    assert s[p] == s[p..p + 1][0] == 'x';
    XStartsNothing();
    hide Decimal, Strtol, IsDigit, IsSpace;
    NumberSpelled(s, p, "", "", "");
    NumberRead(s, p + 1, b);
  }

  lemma XStartsNothing()
    ensures !IsDigit('x') && !IsSpace('x')
  {
  }

  lemma PairRead(s: string, p: nat, a: int32, b: int32)
    requires Holds(s, p, Pair(a, b)) && !IsDigit(At(s, p + |Pair(a, b)|))
    ensures ParsePair(s, p, 'x') == Parsed(a, b, p + |Pair(a, b)|)
  {
    hide Decimal, Strtol;
    HoldsParts(s, p, Decimal(a) + "x", Decimal(b));
    HoldsParts(s, p, Decimal(a), "x");
    var k := p + |Decimal(a)|;
    assert s[k] == s[k..k + 1][0] == 'x';
    NumberRead(s, p, a);
    NumberRead(s, k + 1, b);
  }

  // ----- round trips ------------------------------------------------------------------

  lemma HeldFrom(s: string, p: nat, a: string, rest: string)
    requires p <= |s| && s[p..] == a + rest
    ensures Holds(s, p, a) && p + |a| <= |s| && s[p + |a|..] == rest
    ensures At(s, p + |a|) == if rest == "" then '\0' else rest[0]
  {
    assert s[p + |a|..] == s[p..][|a|..];
    assert s[p..p + |a|] == s[p..][..|a|];
  }

  lemma NotDigits()
    ensures !IsDigit('\0') && !IsDigit(',')
  {
  }

  /** An entry is read when no digit follows it. */
  lemma EntryRead(s: string, p: nat, size: Size, rest: string)
    requires p <= |s| && s[p..] == Pair(size.width, size.height) + rest && (rest == "" || !IsDigit(rest[0]))
    ensures var e := p + |Pair(size.width, size.height)|;
            && e <= |s| && ParsePair(s, p, 'x') == Parsed(size.width, size.height, e)
            && s[e..] == rest && At(s, e) == if rest == "" then '\0' else rest[0]
  {
    hide *;
    NotDigits();
    var pair := Pair(size.width, size.height);
    HeldFrom(s, p, pair, rest);
    PairRead(s, p, size.width, size.height);
  }

  /** One entry at the end, or with a comma behind it and then the other entries, or with something else behind it. */
  lemma ParsedNext(s: string, p: nat)
    requires p <= |s|
    ensures var r := ParsePair(s, p, 'x');
            r.Parsed? ==>
              && (At(s, r.end) == '\0' ==> ParsedSizes(s, p) == [Size(r.first, r.second)])
              && (At(s, r.end) == ',' ==>
                   r.end < |s| && ParsedSizes(s, p) == [Size(r.first, r.second)] + ParsedSizes(s, r.end + 1))
              && (At(s, r.end) != '\0' && At(s, r.end) != ',' ==> ParsedSizes(s, p) == [])
  {
    hide ParsePair;
  }

  lemma FirstOfMany(size: Size, rest: seq<Size>, more: string)
    ensures Joined([size] + rest) + more == Pair(size.width, size.height) + (Tail(rest) + more)
    ensures Tail(rest) + more == if rest == [] then more else "," + (Joined(rest) + more)
  {
    JoinedFirst([size] + rest);
    assert ([size] + rest)[1..] == rest;
    if rest != [] {
      Regroup(",", Joined(rest), more);
    }
    hide Pair, Joined, Tail;
    Regroup(Pair(size.width, size.height), Tail(rest), more);
  }

  /** What is behind a printed list: nothing, a comma and more entries, or something else. */
  function WithRest(s: string, sizes: seq<Size>, e: nat): seq<Size>
    requires sizes != [] && e <= |s|
  {
    if e == |s| then sizes
    else if s[e] == ',' then sizes + ParsedSizes(s, e + 1)
    else sizes[..|sizes| - 1]
  }

  lemma {:induction false} ListRead(s: string, p: nat, sizes: seq<Size>, more: string)
    requires p <= |s| && s[p..] == Joined(sizes) + more && '\0' !in s && sizes != []
    requires more == "" || !IsDigit(more[0])
    ensures var e := p + |Joined(sizes)|;
            && e <= |s| && s[e..] == more
            && ParsedSizes(s, p) == WithRest(s, sizes, e)
    decreases |sizes|
  {
    hide *;
    var size, rest := sizes[0], sizes[1..];
    assert sizes == [size] + rest;
    var e := FirstRead(s, p, size, rest, more);
    if rest != [] {
      ListRead(s, e + 1, rest, more);
      WithFirst(s, size, rest, e + 1 + |Joined(rest)|);
    } else {
      assert sizes == [size];
    }
  }

  lemma FirstRead(s: string, p: nat, size: Size, rest: seq<Size>, more: string) returns (e: nat)
    requires p <= |s| && s[p..] == Joined([size] + rest) + more && '\0' !in s && (more == "" || !IsDigit(more[0]))
    ensures p <= e <= |s|
    ensures rest == [] ==>
              e == p + |Joined([size])| && s[e..] == more && ParsedSizes(s, p) == WithRest(s, [size], e)
    ensures rest != [] ==>
              && e < |s| && e + 1 + |Joined(rest)| == p + |Joined([size] + rest)|
              && s[e + 1..] == Joined(rest) + more
              && ParsedSizes(s, p) == [size] + ParsedSizes(s, e + 1)
  {
    hide *;
    FirstOfMany(size, rest, more);
    FirstLength(size, rest);
    NotDigits();
    EntryRead(s, p, size, Tail(rest) + more);
    e := p + |Pair(size.width, size.height)|;
    if rest == [] {
      assert [size] + [] == [size];
      LastEntry(s, p, size, e);
    } else {
      BehindComma(s, e, Joined(rest) + more);
      ParsedNext(s, p);
    }
  }

  lemma FirstLength(size: Size, rest: seq<Size>)
    ensures |Joined([size] + rest)|
         == |Pair(size.width, size.height)| + (if rest == [] then 0 else 1 + |Joined(rest)|)
  {
    hide Pair;
    FirstOfMany(size, rest, "");
  }

  lemma BehindComma(s: string, e: nat, more: string)
    requires e <= |s| && s[e..] == "," + more
    ensures e < |s| && At(s, e) == ',' && s[e + 1..] == more
  {
    assert s[e] == s[e..][0] && s[e + 1..] == s[e..][1..];
  }

  lemma LastEntry(s: string, p: nat, size: Size, e: nat)
    requires p <= |s| && e <= |s| && '\0' !in s && ParsePair(s, p, 'x') == Parsed(size.width, size.height, e)
    ensures ParsedSizes(s, p) == WithRest(s, [size], e)
  {
    hide ParsePair, ParsedSizes;
    ParsedNext(s, p);
  }

  lemma WithFirst(s: string, size: Size, rest: seq<Size>, e: nat)
    requires rest != [] && e <= |s|
    ensures [size] + WithRest(s, rest, e) == WithRest(s, [size] + rest, e)
  {
    hide ParsedSizes;
  }

  lemma AtEnd(s: string, sizes: seq<Size>)
    requires sizes != []
    ensures WithRest(s, sizes, |s|) == sizes
  {
  }

  lemma NothingRead()
    ensures Joined([]) == "" && ParsedSizes("", 0) == []
  {
  }

  /**
   A printed list with something behind it, other than a digit: behind a comma
   reading goes on; anything else makes the last entry malformed, and the entries
   before it are what is read.
   */
  lemma ListWithRest(sizes: seq<Size>, more: string)
    requires sizes != [] && more != "" && !IsDigit(more[0]) && '\0' !in more
    ensures ParsedSizes(Joined(sizes) + more, 0) ==
              if more[0] == ',' then sizes + ParsedSizes(Joined(sizes) + more, |Joined(sizes)| + 1)
              else sizes[..|sizes| - 1]
  {
    JoinedPlain(sizes);
    var s := Joined(sizes) + more;
    hide Joined, ParsedSizes;
    assert s[0..] == s && s[|Joined(sizes)|] == more[0];
    ListRead(s, 0, sizes, more);
  }

  lemma Regroup<T>(a: seq<T>, b: seq<T>, c: seq<T>)
    ensures a + b + c == a + (b + c)
  {
  }

  /** Characters of a printed list: digits, signs, the x and the comma; nothing a parameter string may not hold. */
  predicate Plain(s: string) { forall i | 0 <= i < |s| :: IsDigit(s[i]) || s[i] in "-x," }

  lemma DecimalPlain(n: int)
    ensures Plain(Decimal(n))
  {
    DigitsRead(if n < 0 then -n else n);
  }

  lemma {:induction false} JoinedPlain(sizes: seq<Size>)
    ensures Plain(Joined(sizes))
  {
    if sizes != [] {
      DecimalPlain(sizes[0].width);
      DecimalPlain(sizes[0].height);
      JoinedPlain(sizes[1..]);
    }
  }

  lemma NoNul(s: string)
    requires Plain(s)
    ensures '\0' !in s
  {
  }

  /** Parsing undoes printing, for every list. */
  lemma SizesRoundTrip(sizes: seq<Size>)
    ensures ParsedSizes(Joined(sizes), 0) == sizes
    ensures Plain(Joined(sizes))
  {
    hide *;
    JoinedPlain(sizes);
    var s := Joined(sizes);
    NoNul(s);
    if sizes == [] {
      NothingRead();
    } else {
      assert s[0..] == s + "" && s[|s|..] == "";
      ListRead(s, 0, sizes, "");
      AtEnd(s, sizes);
    }
  }

  /** Different lists are printed differently. */
  lemma PrintingIsInjective(a: seq<Size>, b: seq<Size>)
    requires Joined(a) == Joined(b)
    ensures a == b
  {
    SizesRoundTrip(a);
    SizesRoundTrip(b);
  }

  lemma {:induction false} DigitsLength(n: nat, k: nat, bound: nat)
    requires 1 <= k && n < bound && bound == Power10(k)
    ensures |Digits(n)| <= k
    decreases k
  {
    if n >= 10 {
      DigitsLength(n / 10, k - 1, Power10(k - 1));
    }
  }

  function Power10(k: nat): nat { if k == 0 then 1 else 10 * Power10(k - 1) }

  lemma DecimalLength(n: int32)
    ensures |Decimal(n)| <= 11
  {
    var m: int := n;
    assert Power10(5) == 10_0000 && Power10(10) == 100_0000_0000;
    DigitsLength(if m < 0 then -m else m, 10, Power10(10));
  }

  /** An entry, with its comma, is at most 24 characters long, so the buffer never cuts one short. */
  lemma EntryFits(a: int32, b: int32)
    ensures |"," + Pair(a, b)| <= 24 && Fitted("," + Pair(a, b)) == "," + Pair(a, b) && Fitted(Pair(a, b)) == Pair(a, b)
  {
    DecimalLength(a);
    DecimalLength(b);
  }

  // ----- the loops ----------------------------------------------------------------------

  lemma JoinedFirst(sizes: seq<Size>)
    ensures Tail([]) == ""
    ensures Joined(sizes) == if sizes == [] then "" else Pair(sizes[0].width, sizes[0].height) + Tail(sizes[1..])
  {
  }

  lemma TailNext(sizes: seq<Size>)
    requires sizes != []
    ensures Tail(sizes) == "," + Pair(sizes[0].width, sizes[0].height) + Tail(sizes[1..])
  {
  }

  /** create_sizes_str */
  method CreateSizesStr(sizes: array<Size>) returns (str: string)
    ensures str == Joined(sizes[..])
  {
    hide Joined, Tail, Pair, Fitted;
    str := "";
    JoinedFirst(sizes[..]);
    if sizes.Length > 0 {
      assert sizes[..][1..] == sizes[1..];
      EntryFits(sizes[0].width, sizes[0].height);
      str := str + Fitted(Pair(sizes[0].width, sizes[0].height));
    }
    var i := 1;
    while i < sizes.Length
      invariant 1 <= i && (sizes.Length == 0 ==> str == "")
      invariant sizes.Length > 0 ==> i <= sizes.Length && str + Tail(sizes[i..]) == Joined(sizes[..])
    {
      EntryFits(sizes[i].width, sizes[i].height);
      TailNext(sizes[i..]);
      assert sizes[i..][1..] == sizes[i + 1..];
      Regroup(str, "," + Pair(sizes[i].width, sizes[i].height), Tail(sizes[i + 1..]));
      str := str + Fitted("," + Pair(sizes[i].width, sizes[i].height));
      i := i + 1;
    }
  }

  /** parseSizesList: the sizes go behind those already there. */
  method ParseSizesList(s: string, sizes: seq<Size>) returns (result: seq<Size>)
    requires '\0' !in s
    ensures result == sizes + ParsedSizes(s, 0)
  {
    hide ParsePair;
    result := sizes;
    var p := 0;
    while true
      invariant p <= |s| && result + ParsedSizes(s, p) == sizes + ParsedSizes(s, 0)
      decreases |s| - p
    {
      var r := ParsePair(s, p, 'x');
      if r.NoPair? || (At(s, r.end) != ',' && At(s, r.end) != '\0') {
        return;
      }
      ParsedNext(s, p);
      Regroup(result, [Size(r.first, r.second)], if At(s, r.end) == '\0' then [] else ParsedSizes(s, r.end + 1));
      result := result + [Size(r.first, r.second)];
      p := r.end;
      if At(s, p) == '\0' {
        return;
      }
      p := p + 1;
    }
  }

  // ----- touch positions -----------------------------------------------------------------

  /** getTouchIndexAec and getTouchIndexAf: -1, -1 when the string is missing or is no pair. */
  function TouchIndex(params: map<string, string>, key: string): (int32, int32) {
    if key !in params then (-1, -1)
    else
      var r := ParsePair(params[key], 0, 'x');
      if r.NoPair? then (-1, -1) else (r.first, r.second)
  }

  /** A missing key, or a number with no delimiter behind it: no position. */
  lemma NoTouchIndex(params: map<string, string>, key: string, n: int32, more: string)
    requires more == "" || (!IsDigit(more[0]) && more[0] != 'x')
    requires key in params ==> params[key] == Decimal(n) + more
    ensures TouchIndex(params, key) == (-1, -1)
  {
    if key in params {
      var s := params[key];
      assert Holds(s, 0, Decimal(n)) && s[|Decimal(n)|..] == more;
      hide Decimal, Strtol;
      assert At(s, |Decimal(n)|) == if more == "" then '\0' else more[0];
      NumberRead(s, 0, n);
    }
  }

  /** A position that was set is read back, and other keys keep theirs. */
  lemma TouchRoundTrip(params: map<string, string>, key: string, other: string, x: int32, y: int32)
    ensures TouchIndex(params[key := Fitted(Pair(x, y))], key) == (x, y)
    ensures other != key ==> TouchIndex(params[key := Fitted(Pair(x, y))], other) == TouchIndex(params, other)
  {
    EntryFits(x, y);
    PairRead(Pair(x, y), 0, x, y);
  }

  class Parameters {
    var params: map<string, string>

    constructor ()
      ensures params == map[]
    {
      params := map[];
    }

    method SetTouchIndex(key: string, x: int32, y: int32)
      modifies this
      ensures params == old(params)[key := Pair(x, y)]
    {
      EntryFits(x, y);
      params := params[key := Fitted(Pair(x, y))];
    }

    method GetTouchIndex(key: string) returns (x: int32, y: int32)
      ensures (x, y) == TouchIndex(params, key)
    {
      x, y := -1, -1;
      if key !in params {
        return;
      }
      var r := ParsePair(params[key], 0, 'x');
      if r.Parsed? {
        x, y := r.first, r.second;
      }
    }
  }
}
