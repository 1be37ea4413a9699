/**
 Reason texts as lists of words, and what the statistics parser reads back from them
 (internal/riskcontrol/stats.go, and the format strings of the two rules that it parses).
 */
module Reasons {
  import opened Basics
  import opened Text

  /** The words of a text, separated by single spaces. A word may itself hold spaces. */
  function Join(words: seq<string>): string {
    if words == [] then ""
    else if |words| == 1 then words[0]
    else Join(words[..|words| - 1]) + " " + words[|words| - 1]
  }

  function Field(tag: string, value: string): string {
    tag + "=" + value
  }

  function Bool(b: bool): string {
    if b then "true" else "false"
  }

  /** A marker without spaces occurs in the text exactly if it occurs in one of the words. */
  lemma {:induction false} OccursInJoin(words: seq<string>, m: string)
    requires m != "" && ' ' !in m
    ensures Occurs(Join(words), m) <==> exists i :: 0 <= i < |words| && Occurs(words[i], m)
  {
    if words == [] {
      NeedsFirst("", m);
    } else if |words| > 1 {
      var init, last := words[..|words| - 1], words[|words| - 1];
      OccursInJoin(init, m);
      OccursSplit(Join(init), ' ', last, m);
      assert forall i :: 0 <= i < |init| ==> init[i] == words[i];
    }
  }

  /** What follows word i in the text. */
  function Tail(words: seq<string>, i: nat): string
    requires i < |words|
  {
    if i == |words| - 1 then "" else Tail(words[..|words| - 1], i) + " " + words[|words| - 1]
  }

  lemma OneWordMore(words: seq<string>, i: nat)
    requires 0 < i < |words|
    ensures var init, last := words[..|words| - 1], words[|words| - 1];
            && Join(words) == Join(init) + " " + last
            && Tail(words, i) == if i == |words| - 1 then "" else Tail(init, i) + " " + last
  {
  }

  lemma {:induction false} JoinSplit(words: seq<string>, i: nat)
    requires 0 < i < |words|
    ensures Join(words) == Join(words[..i]) + " " + words[i] + Tail(words, i)
    ensures Tail(words, i) == "" || Tail(words, i)[0] == ' '
  {
    hide Join, Tail;
    OneWordMore(words, i);
    var init, last := words[..|words| - 1], words[|words| - 1];
    if i == |words| - 1 {
      assert words[..i] == init;
    } else {
      JoinSplit(init, i);
      assert init[..i] == words[..i] && init[i] == words[i];
    }
  }

  /**
   The parser finds the value behind a marker: word i is the marker followed by a token without spaces, and
   no earlier word holds the marker.
   */
  lemma ParsedFromWords(words: seq<string>, i: nat, m: string, token: string)
    requires 0 < i < |words| && words[i] == m + token
    requires m != "" && ' ' !in m && token != "" && forall c :: c in token ==> !IsSpace(c)
    requires forall j :: 0 <= j < i ==> !Occurs(words[j], m)
    ensures ParseStringAfter(Join(words), m) == Some(token)
  {
    JoinSplit(words, i);
    OccursInJoin(words[..i], m);
    var before, tail := Join(words[..i]), Tail(words, i);
    Regroup(before, m, token, tail);
    ParsedAfterMarker(before, m, token, tail);
  }

  lemma Regroup(before: string, m: string, token: string, tail: string)
    ensures before + " " + (m + token) + tail == before + [' '] + (m + (token + tail))
  {
  }

  lemma ParsedAfterMarker(before: string, m: string, token: string, tail: string)
    requires m != "" && ' ' !in m && !Occurs(before, m)
    requires token != "" && (forall c :: c in token ==> !IsSpace(c)) && (tail == "" || IsBlank(tail[0]))
    ensures ParseStringAfter(before + [' '] + (m + (token + tail)), m) == Some(token)
  {
    var s := before + [' '] + (m + (token + tail));
    FoundAfterSeparator(before, ' ', m, token + tail);
    assert s[|before| + 1 + |m|..] == token + tail;
    SolidToken(token, tail);
  }

  lemma IntParsedFromWords(words: seq<string>, i: nat, m: string, n: int)
    requires 0 < i < |words| && words[i] == m + Dec(n)
    requires m != "" && ' ' !in m && -MAX_INT64 - 1 <= n <= MAX_INT64
    requires forall j :: 0 <= j < i ==> !Occurs(words[j], m)
    ensures ParseInt64After(Join(words), m) == Some(n)
  {
    DecIsNumeric(n);
    NumericIsSolid(Dec(n));
    ParsedFromWords(words, i, m, Dec(n));
    IntParsed(Join(words), m, n);
  }

  lemma IntParsed(s: string, m: string, n: int)
    requires ParseStringAfter(s, m) == Some(Dec(n)) && -MAX_INT64 - 1 <= n <= MAX_INT64
    ensures ParseInt64After(s, m) == Some(n)
  {
    DecIsNumeric(n);
    NumericIsSolid(Dec(n));
    TrimSolid(Dec(n));
    ParseRoundTrip(n);
  }

  lemma NumericIsSolid(s: string)
    ensures Numeric(s) ==>
              forall c :: c in s ==> !IsSpace(c)
  {
  }

  lemma TrimSolid(s: string)
    requires forall c :: c in s ==> !IsSpace(c)
    ensures TrimSpace(s) == s
  {
    if s != "" {
      assert s[0] in s && s[|s| - 1] in s;
    }
  }

  /** Without the marker there is nothing to parse. */
  lemma NothingParsed(words: seq<string>, m: string)
    requires m != "" && ' ' !in m
    requires forall j :: 0 <= j < |words| ==> !Occurs(words[j], m)
    ensures ParseStringAfter(Join(words), m) == None && ParseInt64After(Join(words), m) == None
  {
    OccursInJoin(words, m);
  }

  predicate EndsWith(s: string, suffix: string) {
    |suffix| <= |s| && s[|s| - |suffix|..] == suffix
  }

  /** A field holds the marker `key=` only if its tag ends with the key or its value holds the marker. */
  lemma FieldFree(tag: string, value: string, key: string)
    requires key != "" && '=' !in key && '=' !in tag
    requires !EndsWith(tag, key) && !Occurs(value, key + "=")
    ensures !Occurs(Field(tag, value), key + "=")
  {
    var m := key + "=";
    assert m[..|m| - 1] == key;
    assert Field(tag, value) == tag + ['='] + value;
    OccursSplitAfter(tag, '=', value, m);
    var s := tag + ['='];
    if Occurs(s, m) {
      var i: nat :| i <= |s| && OccursAt(s, m, i);
      NoStraddle(s, m, i, |tag|);
      LastOfMarker(tag, key, i);
    }
  }

  lemma LastOfMarker(tag: string, key: string, i: nat)
    requires OccursAt(tag + ['='], key + "=", i) && '=' !in tag
    ensures EndsWith(tag, key)
  {
    var s, m := tag + ['='], key + "=";
    var n := |key|;
    assert s[i + n] == s[i..i + n + 1][n] == m[n] == '=';
    assert i + n == |tag|;
    assert tag[i..] == s[i..i + n + 1][..n] == m[..n] == key;
  }

  lemma NumericFree(value: string, m: string)
    requires Numeric(value) && m != "" && 'a' <= m[0] <= 'z'
    ensures !Occurs(value, m)
  {
    NeedsFirst(value, m);
  }

  lemma ShortFree(s: string, m: string)
    ensures |s| < |m| ==>
              !Occurs(s, m)
  {
  }

  /** Field texts hold a `key=` marker only through a foreign value, once the tag does not end with the key. */
  lemma NumberField(tag: string, value: string, key: string)
    requires key != "" && '=' !in key && '=' !in tag && !EndsWith(tag, key)
    requires Numeric(value) && 'a' <= key[0] <= 'z'
    ensures !Occurs(Field(tag, value), key + "=")
  {
    NumericFree(value, key + "=");
    FieldFree(tag, value, key);
  }

  ghost predicate AllFree(words: seq<string>, m: string) {
    forall j :: 0 <= j < |words| ==> !Occurs(words[j], m)
  }

  lemma AllFreeConcat(x: seq<string>, y: seq<string>, m: string)
    ensures AllFree(x, m) && AllFree(y, m) ==>
              AllFree(x + y, m)
  {
  }

  lemma FieldReadBack(head: seq<string>, key: string, n: int, rest: seq<string>)
    requires head != [] && AllFree(head, key + "=") && key != "" && ' ' !in key
    requires -MAX_INT64 - 1 <= n <= MAX_INT64
    ensures ParseInt64After(Join(head + [Field(key, Dec(n))] + rest), key + "=") == Some(n)
  {
    var words := head + [Field(key, Dec(n))] + rest;
    assert forall j :: 0 <= j < |head| ==> words[j] == head[j];
    assert words[|head|] == key + "=" + Dec(n);
    IntParsedFromWords(words, |head|, key + "=", n);
  }
}
