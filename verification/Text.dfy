/**
 The string operations that reasons are printed and parsed with: Go's `strings` and `strconv` functions on
 sequences of characters, and the two parsers of internal/riskcontrol/stats.go.
 */
module Text {
  import opened Basics

  const MAX_INT64: int := 0x7FFF_FFFF_FFFF_FFFF

  /** Go's `unicode.IsSpace`. */
  predicate IsSpace(c: char) {
    c in {'\t', '\n', '\U{000B}', '\U{000C}', '\r', ' ', '\U{0085}', '\U{00A0}', '\U{1680}', '\U{2028}', '\U{2029}',
          '\U{202F}', '\U{205F}', '\U{3000}'}
    || '\U{2000}' <= c <= '\U{200A}'
  }

  /** The four characters at which the parser ends a token. */
  predicate IsBlank(c: char) {
    c == ' ' || c == '\t' || c == '\n' || c == '\r'
  }

  predicate NoBlank(s: string) {
    forall c :: c in s ==> !IsBlank(c)
  }

  function TrimLeft(s: string): string {
    if s != [] && IsSpace(s[0]) then TrimLeft(s[1..]) else s
  }

  function TrimRight(s: string): string {
    if s != [] && IsSpace(s[|s| - 1]) then TrimRight(s[..|s| - 1]) else s
  }

  function TrimSpace(s: string): string {
    TrimRight(TrimLeft(s))
  }

  // ---------------------------------------------------------------- occurrences

  predicate OccursAt(s: string, m: string, i: nat) {
    i + |m| <= |s| && s[i..i + |m|] == m
  }

  predicate Occurs(s: string, m: string) {
    exists i: nat :: i <= |s| && OccursAt(s, m, i)
  }

  /** The first occurrence at or after i. */
  function IndexFrom(s: string, m: string, i: nat): (r: Option<nat>)
    ensures r.Some? ==> OccursAt(s, m, r.value) && i <= r.value <= |s| && forall j: nat :: i <= j < r.value ==>
            !OccursAt(s, m, j)
    ensures r.None? ==> forall j: nat :: i <= j ==> !OccursAt(s, m, j)
    decreases |s| - i
  {
    if i + |m| > |s| then None
    else if OccursAt(s, m, i) then Some(i)
    else IndexFrom(s, m, i + 1)
  }

  /** Go's `strings.Index`. */
  function Index(s: string, m: string): (r: Option<nat>)
    ensures r.Some? <==> Occurs(s, m)
  {
    IndexFrom(s, m, 0)
  }

  /** Occurrences inside a part are occurrences in the whole. */
  lemma InPart(s: string, off: nat, t: string, m: string, i: nat)
    requires off + |t| <= |s| && s[off..off + |t|] == t
    ensures i + |m| <= |t| ==> (OccursAt(t, m, i) <==> OccursAt(s, m, off + i))
  {
    assert forall j :: 0 <= j < |t| ==> t[j] == s[off..off + |t|][j] == s[off + j];
    if i + |m| <= |t| {
      assert t[i..i + |m|] == s[off + i..off + i + |m|];
    }
  }

  /** No occurrence runs over a character that it may not contain there. */
  lemma NoStraddle(s: string, m: string, i: nat, p: nat)
    requires OccursAt(s, m, i) && p < |s|
    ensures s[p] !in m ==> p < i || i + |m| <= p
    ensures m != "" && s[p] !in m[..|m| - 1] ==> p < i || i + |m| <= p + 1
  {
    assert i <= p < i + |m| ==> s[p] == s[i..i + |m|][p - i] == m[p - i];
    assert i <= p < i + |m| - 1 ==> m[..|m| - 1][p - i] == m[p - i];
  }

  /** A separator that the marker does not contain splits the search. */
  lemma OccursSplit(x: string, c: char, y: string, m: string)
    requires c !in m && m != ""
    ensures Occurs(x + [c] + y, m) <==> Occurs(x, m) || Occurs(y, m)
  {
    SplitSearch(x, 1, [c], y, m);
  }

  /** A character that the marker contains only at its end splits the search after itself. */
  lemma OccursSplitAfter(x: string, c: char, y: string, m: string)
    requires m != "" && c !in m[..|m| - 1]
    ensures Occurs(x + [c] + y, m) <==> Occurs(x + [c], m) || Occurs(y, m)
  {
    assert x + [c] + y == (x + [c]) + [] + y;
    SplitSearch(x + [c], 0, [], y, m);
  }

  /** The left part, `gap` characters that no occurrence touches, and the right part are searched apart. */
  lemma SplitSearch(x: string, gap: nat, g: string, y: string, m: string)
    requires m != "" && |g| == gap
    requires gap == 0 ==> x != "" && x[|x| - 1] !in m[..|m| - 1]
    requires gap > 0 ==> gap == 1 && g[0] !in m
    ensures Occurs(x + g + y, m) <==> Occurs(x, m) || Occurs(y, m)
  {
    var s, off := x + g + y, |x| + gap;
    Parts(x, g, y);
    PartInWhole(s, 0, x, m);
    PartInWhole(s, off, y, m);
    if Occurs(s, m) {
      var i: nat :| i <= |s| && OccursAt(s, m, i);
      var p := if gap > 0 then |x| else |x| - 1;
      assert s[p] == if gap > 0 then g[0] else x[|x| - 1];
      NoStraddle(s, m, i, p);
      OnOneSide(s, x, off, y, m, i);
    }
  }

  lemma Parts(x: string, g: string, y: string)
    ensures var s := x + g + y; s[0..|x|] == x && s[|x| + |g|..|x| + |g| + |y|] == y && |s| == |x| + |g| + |y|
  {
    assert x + g + y == x + (g + y);
    assert |x + g| == |x| + |g|;
  }

  lemma OnOneSide(s: string, x: string, off: nat, y: string, m: string, i: nat)
    requires |x| <= off && off + |y| == |s| && s[0..|x|] == x && s[off..off + |y|] == y
    requires OccursAt(s, m, i) && (i + |m| <= |x| || off <= i)
    ensures Occurs(x, m) || Occurs(y, m)
  {
    if i + |m| <= |x| {
      InPart(s, 0, x, m, i);
      assert OccursAt(x, m, i);
    } else {
      InPart(s, off, y, m, i - off);
      assert OccursAt(y, m, i - off);
    }
  }

  lemma PartInWhole(s: string, off: nat, t: string, m: string)
    requires off + |t| <= |s| && s[off..off + |t|] == t
    ensures Occurs(t, m) ==> Occurs(s, m)
  {
    if Occurs(t, m) {
      var i: nat :| i <= |t| && OccursAt(t, m, i);
      InPart(s, off, t, m, i);
      assert OccursAt(s, m, off + i);
    }
  }

  /** A marker cannot occur where one of its characters is missing. */
  lemma NeedsChar(s: string, m: string, k: nat)
    requires k < |m| && m[k] !in s
    ensures !Occurs(s, m)
  {
    assert forall i: nat :: OccursAt(s, m, i) ==> s[i + k] == s[i..i + |m|][k] == m[k];
  }

  lemma NeedsFirst(s: string, m: string)
    requires m != "" && m[0] !in s
    ensures !Occurs(s, m)
  {
    NeedsChar(s, m, 0);
  }

  lemma OccursBefore(p: string, c: char, rest: string, m: string, j: nat)
    requires c !in m && m != "" && j <= |p| && OccursAt(p + [c] + rest, m, j)
    ensures Occurs(p, m)
  {
    var s := p + [c] + rest;
    NoStraddle(s, m, j, |p|);
    assert s[0..|p|] == p;
    InPart(s, 0, p, m, j);
  }

  /** A marker preceded by a separator, and not occurring before it, is found there. */
  lemma FoundAfterSeparator(p: string, c: char, m: string, rest: string)
    requires c !in m && m != "" && !Occurs(p, m)
    ensures Index(p + [c] + (m + rest), m) == Some(|p| + 1)
  {
    var s := p + [c] + (m + rest);
    assert s[|p| + 1..|p| + 1 + |m|] == m;
    assert OccursAt(s, m, |p| + 1);
    var i := Index(s, m).value;
    if i <= |p| {
      OccursBefore(p, c, m + rest, m, i);
    }
  }

  /** Trimming spaces does not change which space-free words occur. */
  lemma {:induction false} TrimKeepsWords(s: string, w: string)
    requires w != "" && forall c :: c in w ==> !IsSpace(c)
    ensures Occurs(TrimSpace(s), w) <==> Occurs(s, w)
  {
    TrimLeftKeepsWords(s, w);
    TrimRightKeepsWords(TrimLeft(s), w);
  }

  lemma {:induction false} TrimLeftKeepsWords(s: string, w: string)
    requires w != "" && forall c :: c in w ==> !IsSpace(c)
    ensures Occurs(TrimLeft(s), w) <==> Occurs(s, w)
  {
    if s != [] && IsSpace(s[0]) {
      assert s == [] + [s[0]] + s[1..];
      OccursSplit([], s[0], s[1..], w);
      NeedsFirst([], w);
      TrimLeftKeepsWords(s[1..], w);
    }
  }

  lemma {:induction false} TrimRightKeepsWords(s: string, w: string)
    requires w != "" && forall c :: c in w ==> !IsSpace(c)
    ensures Occurs(TrimRight(s), w) <==> Occurs(s, w)
  {
    if s != [] && IsSpace(s[|s| - 1]) {
      var init, c := s[..|s| - 1], s[|s| - 1];
      assert s == init + [c] + [];
      OccursSplit(init, c, [], w);
      NeedsFirst([], w);
      TrimRightKeepsWords(init, w);
    }
  }

  // ---------------------------------------------------------------- decimal numbers

  function Digit(d: nat): char
    requires d < 10
  {
    "0123456789"[d]
  }

  predicate IsDigit(c: char) {
    '0' <= c <= '9'
  }

  function DecNat(n: nat): (s: string)
    ensures s != "" && forall i :: 0 <= i < |s| ==> IsDigit(s[i])
  {
    (if n < 10 then [] else DecNat(n / 10)) + [Digit(n % 10)]
  }

  /** Go's `%d`. */
  function Dec(n: int): string {
    if n < 0 then "-" + DecNat(-n) else DecNat(n)
  }

  predicate AllDigits(s: string) {
    forall i :: 0 <= i < |s| ==> IsDigit(s[i])
  }

  function DigitsValue(s: string): nat
    requires AllDigits(s)
  {
    if s == [] then 0
    else
      var d := s[|s| - 1];
      assert IsDigit(d);
      10 * DigitsValue(s[..|s| - 1]) + (d as int - '0' as int)
  }

  /** Go's `strconv.ParseInt(s, 10, 64)`, with its range check. */
  function ParseInt64(s: string): Option<int> {
    var negative := s != [] && s[0] == '-';
    var digits := if s != [] && (s[0] == '-' || s[0] == '+') then s[1..] else s;
    if digits == [] || !AllDigits(digits) then None
    else
      var v: int := DigitsValue(digits);
      if negative then (if v <= MAX_INT64 + 1 then Some(-v) else None)
      else if v <= MAX_INT64 then Some(v) else None
  }

  lemma {:induction false} DigitsRoundTrip(n: nat)
    ensures DigitsValue(DecNat(n)) == n
  {
    var s := DecNat(n);
    if n >= 10 {
      DigitsRoundTrip(n / 10);
      assert s[..|s| - 1] == DecNat(n / 10);
    } else {
      assert s[..|s| - 1] == [];
    }
  }

  lemma ParseRoundTrip(n: int)
    requires -MAX_INT64 - 1 <= n <= MAX_INT64
    ensures ParseInt64(Dec(n)) == Some(n)
  {
    hide DecNat, DigitsValue;
    var digits := DecNat(Abs(n));
    DigitsRoundTrip(Abs(n));
    assert IsDigit(digits[0]);
    if n < 0 {
      assert ("-" + digits)[1..] == digits;
    }
  }

  /** Whatever is parsed fits into 64 bits. */
  lemma ParsedFits(s: string)
    ensures var r := ParseInt64(s); r.Some? ==> -0x8000_0000_0000_0000 <= r.value < 0x8000_0000_0000_0000
  {
    hide AllDigits, DigitsValue;
  }

  /** Digits, signs and decimal points. */
  predicate Numeric(s: string) {
    forall i :: 0 <= i < |s| ==> IsDigit(s[i]) || s[i] == '-' || s[i] == '.'
  }

  lemma DecIsNumeric(n: int)
    ensures Numeric(Dec(n)) && Dec(n) != ""
  {
  }

  function Zeros(n: nat): (s: string)
    ensures Numeric(s)
  {
    if n == 0 then "" else "0" + Zeros(n - 1)
  }

  /** Go's `%.10f` of a finite number (ties are rounded up here). */
  function Fixed10(x: real): (s: string)
    ensures Numeric(s)
  {
    var scaled := ((if x < 0.0 then -x else x) * 10000000000.0 + 0.5).Floor;
    var fraction := DecNat(scaled % 10000000000);
    (if x < 0.0 then "-" else "") + DecNat(scaled / 10000000000) + "." +
    Zeros(if |fraction| < 10 then 10 - |fraction| else 0) + fraction
  }

  /** Ten to the k. */
  function Power(k: nat): nat {
    if k == 0 then 1 else 10 * Power(k - 1)
  }

  lemma {:induction false} DecNatSize(n: nat, k: nat)
    requires k > 0 && n < Power(k)
    ensures |DecNat(n)| <= k
  {
    if n >= 10 {
      assert k > 1;
      DecNatSize(n / 10, k - 1);
    }
  }

  lemma {:induction false} ZerosAddNothing(k: nat, s: string)
    requires AllDigits(s)
    ensures |Zeros(k)| == k && AllDigits(Zeros(k) + s) && DigitsValue(Zeros(k) + s) == DigitsValue(s)
    decreases k, |s|
  {
    if s == [] {
      if k > 0 {
        ZerosAddNothing(k - 1, []);
        ZerosAtEnd(k);
      }
    } else {
      var init := s[..|s| - 1];
      ZerosAddNothing(k, init);
      assert (Zeros(k) + s)[..|Zeros(k) + s| - 1] == Zeros(k) + init;
    }
  }

  lemma {:induction false} ZerosAtEnd(k: nat)
    requires k > 0
    ensures |Zeros(k)| == k && AllDigits(Zeros(k)) && DigitsValue(Zeros(k)) == 0 && Zeros(k)[k - 1] == '0'
    ensures Zeros(k) + [] == Zeros(k)
  {
    if k > 1 {
      ZerosAtEnd(k - 1);
      assert Zeros(k) == Zeros(k - 1) + "0" by {
        ZerosEitherEnd(k - 1);
      }
      assert Zeros(k)[..k - 1] == Zeros(k - 1);
    } else {
      assert Zeros(1) == "0" + Zeros(0) == "0";
      assert "0"[..0] == "";
    }
  }

  lemma {:induction false} ZerosEitherEnd(k: nat)
    ensures "0" + Zeros(k) == Zeros(k) + "0"
  {
    if k > 0 {
      ZerosEitherEnd(k - 1);
    }
  }

  /** A number in units of the tenth decimal, without its sign. */
  function FixedBody(scaled: nat): string {
    var part := DecNat(scaled % 10000000000);
    DecNat(scaled / 10000000000) + "." + (Zeros(if |part| < 10 then 10 - |part| else 0) + part)
  }

  /** Digits, a point and ten digits, which together are the number. */
  predicate IsFixed(body: string, scaled: nat) {
    var n := |body| - 11;
    && n > 0 && body[n] == '.' && AllDigits(body[..n]) && AllDigits(body[n + 1..])
    && DigitsValue(body[..n]) * 10000000000 + DigitsValue(body[n + 1..]) == scaled
  }

  lemma TenDecimals()
    ensures Power(10) == 10000000000
  {
  }

  /** The part behind the point, padded with zeros to ten digits. */
  lemma PaddedPart(n: nat)
    requires n < 10000000000
    ensures var part := DecNat(n);
            var padded := Zeros(if |part| < 10 then 10 - |part| else 0) + part;
            |padded| == 10 && AllDigits(padded) && DigitsValue(padded) == n
  {
    hide DecNat, DigitsValue, Zeros, Power;
    TenDecimals();
    DecNatSize(n, 10);
    var part := DecNat(n);
    ZerosAddNothing(if |part| < 10 then 10 - |part| else 0, part);
    DigitsRoundTrip(n);
  }

  lemma FixedBodyReads(scaled: nat)
    ensures IsFixed(FixedBody(scaled), scaled) && IsDigit(FixedBody(scaled)[0])
  {
    hide DecNat, DigitsValue, Zeros, IsFixed, AllDigits;
    PaddedPart(scaled % 10000000000);
    DigitsRoundTrip(scaled / 10000000000);
    var whole, part := DecNat(scaled / 10000000000), DecNat(scaled % 10000000000);
    DigitsOnly(scaled / 10000000000);
    Assemble(whole, Zeros(if |part| < 10 then 10 - |part| else 0) + part);
  }

  lemma DigitsOnly(n: nat)
    ensures DecNat(n) != "" && AllDigits(DecNat(n)) && IsDigit(DecNat(n)[0])
  {
    hide DecNat;
  }

  lemma Assemble(whole: string, tail: string)
    requires whole != "" && AllDigits(whole) && |tail| == 10 && AllDigits(tail)
    ensures IsFixed(whole + "." + tail, DigitsValue(whole) * 10000000000 + DigitsValue(tail))
  {
    hide DigitsValue, AllDigits;
    var body := whole + "." + tail;
    assert |body| - 11 == |whole|;
    assert body[..|whole|] == whole && body[|whole|] == '.' && body[|whole| + 1..] == tail;
  }

  lemma FixedShape(x: real)
    ensures var scaled := ((if x < 0.0 then -x else x) * 10000000000.0 + 0.5).Floor;
            scaled >= 0 && Fixed10(x) == (if x < 0.0 then "-" else "") + FixedBody(scaled)
  {
    hide DecNat, Zeros;
  }

  /**
   The printed number is the nearest one with ten decimals, halves away from zero, and it has a sign exactly if the
   number is negative.
   */
  lemma FixedIsNearest(x: real)
    ensures var s, size := Fixed10(x), if x < 0.0 then -x else x;
            && s != "" && (s[0] == '-' <==> x < 0.0)
            && var body := if x < 0.0 then s[1..] else s;
               exists n: nat :: IsFixed(body, n) && n as real - 0.5 <= size * 10000000000.0 < n as real + 0.5
  {
    var size := if x < 0.0 then -x else x;
    var n := (size * 10000000000.0 + 0.5).Floor;
    FixedShape(x);
    FixedBodyReads(n);
    hide Fixed10, FixedBody, IsFixed;
    var s := Fixed10(x);
    assert (if x < 0.0 then s[1..] else s) == FixedBody(n);
  }

  // ---------------------------------------------------------------- the parsers

  function FirstToken(s: string): string {
    if s == [] || IsBlank(s[0]) then [] else [s[0]] + FirstToken(s[1..])
  }

  function ParseStringAfter(s: string, marker: string): Option<string> {
    var i := Index(s, marker);
    if i.None? then None
    else
      var rest := TrimSpace(s[i.value + |marker|..]);
      if rest == "" then None else Some(FirstToken(rest))
  }

  function ParseInt64After(s: string, marker: string): Option<int> {
    var raw := ParseStringAfter(s, marker);
    if raw.None? then None else ParseInt64(TrimSpace(raw.value))
  }

  /** The scan for the end of the token. */
  method ScanToken(rest: string) returns (token: string)
    ensures token == FirstToken(rest)
    ensures NoBlank(token) && token <= rest
  {
    var end := |rest|;
    for j := 0 to |rest|
      invariant NoBlank(rest[..j])
      invariant end == |rest|
    {
      if IsBlank(rest[j]) {
        end := j;
        break;
      }
      assert rest[..j + 1] == rest[..j] + [rest[j]];
    }
    assert rest[..|rest|] == rest;
    token := rest[..end];
    TokenIsPrefix(rest, end);
  }

  lemma {:induction false} TokenIsPrefix(rest: string, end: nat)
    requires end <= |rest| && NoBlank(rest[..end]) && (end < |rest| ==> IsBlank(rest[end]))
    ensures FirstToken(rest) == rest[..end]
  {
    if end > 0 {
      assert rest[..end][0] == rest[0];
      assert rest[1..][..end - 1] == rest[..end][1..];
      TokenIsPrefix(rest[1..], end - 1);
    }
  }

  lemma {:induction false} TrimRightKeepsHead(s: string, n: nat)
    requires n <= |s| && (n > 0 ==> !IsSpace(s[n - 1]))
    ensures n <= |TrimRight(s)| <= |s| && TrimRight(s) == s[..|TrimRight(s)|]
  {
    if s != [] && IsSpace(s[|s| - 1]) {
      var init := s[..|s| - 1];
      TrimRightKeepsHead(init, n);
      assert init[..|TrimRight(init)|] == s[..|TrimRight(init)|];
    }
  }

  /** The first token of a text that starts with a solid token and goes on with a blank or ends. */
  lemma SolidToken(token: string, rest: string)
    requires token != "" && (forall c :: c in token ==> !IsSpace(c))
    requires rest == "" || IsBlank(rest[0])
    ensures TrimSpace(token + rest) != "" && FirstToken(TrimSpace(token + rest)) == token
  {
    var s := token + rest;
    assert s[0] in token;
    assert s[|token| - 1] in token;
    TrimRightKeepsHead(s, |token|);
    var t := TrimSpace(s);
    assert t[..|token|] == token;
    TokenIsPrefix(t, |token|);
  }
}
