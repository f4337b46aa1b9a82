/** The handler key that `forward_messages_to_groups` builds to refuse a
    second registration of the same forwarding configuration: Python's
    `f"{source.id}_to_{'_'.join(str(t.id) for t in targets)}"`.
    The module gives Python's `str(int)` in decimal, a parser for the key, and
    proves that the key determines the source id and the ordered target ids. */
module RouteKey {
  import opened Common

  predicate IsDigit(c: char)
  {
    '0' <= c <= '9'
  }

  function DigitChar(d: nat): (c: char)
    requires d < 10
    ensures IsDigit(c)
  {
    ('0' as int + d) as char
  }

  /** Decimal digits of `n`, most significant first, no leading zeros. */
  function Digits(n: nat): (s: string)
    ensures |s| > 0
    ensures forall i :: 0 <= i < |s| ==> IsDigit(s[i])
    decreases n
  {
    if n < 10 then [DigitChar(n)] else Digits(n / 10) + [DigitChar(n % 10)]
  }

  /** Python `str(n)` for an int: a '-' sign for negatives, then the digits. */
  function IntToString(n: int): (s: string)
    ensures |s| > 0
    ensures '_' !in s
  {
    if n < 0 then "-" + Digits(-n) else Digits(n)
  }

  /** The number a non-empty run of decimal digits denotes. */
  function DigitsValue(s: string): nat
    requires forall i :: 0 <= i < |s| ==> IsDigit(s[i])
    decreases |s|
  {
    if s == [] then 0
    else
      assert IsDigit(s[|s| - 1]);
      DigitsValue(s[..|s| - 1]) * 10 + (s[|s| - 1] as int - '0' as int)
  }

  predicate AllDigits(s: string)
  {
    |s| > 0 && forall i :: 0 <= i < |s| ==> IsDigit(s[i])
  }

  /** Reads an optionally '-'-signed decimal integer; None for anything else. */
  function ParseInt(s: string): Option<int>
  {
    if |s| > 0 && s[0] == '-' && AllDigits(s[1..]) then Some(0 - DigitsValue(s[1..]) as int)
    else if AllDigits(s) then Some(DigitsValue(s) as int)
    else None
  }

  lemma {:induction false} DigitsValueOfDigits(n: nat)
    ensures DigitsValue(Digits(n)) == n
    decreases n
  {
    if n >= 10 {
      DigitsValueOfDigits(n / 10);
      var s := Digits(n);
      assert s[..|s| - 1] == Digits(n / 10);
    }
  }

  /** `str` is inverted by the parser: the text of an id gives the id back. */
  lemma ParseIntToString(n: int)
    ensures ParseInt(IntToString(n)) == Some(n)
  {
    var s := IntToString(n);
    if n < 0 {
      var d := Digits(-n);
      DigitsValueOfDigits(-n);
      assert s == "-" + d;
      assert s[0] == '-' && s[1..] == d;
      assert AllDigits(d);
    } else {
      DigitsValueOfDigits(n);
      assert s == Digits(n);
      assert IsDigit(s[0]);
      assert AllDigits(s);
    }
  }

  /** The texts of the ids, one per id. */
  function Texts(ids: seq<int>): (r: seq<string>)
    ensures |r| == |ids|
    decreases |ids|
  {
    if ids == [] then [] else [IntToString(ids[0])] + Texts(ids[1..])
  }

  /** Python `'_'.join(str(t) for t in ids)`. */
  function JoinIds(ids: seq<int>): (s: string)
    ensures ids == [] <==> s == []
    decreases |ids|
  {
    if ids == [] then ""
    else if |ids| == 1 then IntToString(ids[0])
    else IntToString(ids[0]) + "_" + JoinIds(ids[1..])
  }

  /** The handler key of a source id and the ordered target ids. */
  function HandlerKey(source: int, targets: seq<int>): string
  {
    IntToString(source) + "_to_" + JoinIds(targets)
  }

  /** Position of the first `c` in `s`, or `|s|` when there is none. */
  function IndexOf(s: string, c: char): (i: nat)
    ensures i <= |s|
    ensures i < |s| ==> s[i] == c
    ensures forall j :: 0 <= j < i ==> s[j] != c
    decreases |s|
  {
    if s == [] then 0 else if s[0] == c then 0 else 1 + IndexOf(s[1..], c)
  }

  /** Python `s.split('_')`. */
  function Split(s: string): (r: seq<string>)
    ensures |r| > 0
    decreases |s|
  {
    var i := IndexOf(s, '_');
    if i == |s| then [s] else [s[..i]] + Split(s[i + 1..])
  }

  function ParseAll(pieces: seq<string>): Option<seq<int>>
    decreases |pieces|
  {
    if pieces == [] then Some([])
    else match (ParseInt(pieces[0]), ParseAll(pieces[1..]))
      case (Some(n), Some(ns)) => Some([n] + ns)
      case _ => None
  }

  /** Recovers the source id and ordered target ids from a handler key;
      None when the text is not shaped like one. */
  function ParseHandlerKey(key: string): Option<(int, seq<int>)>
  {
    var i := IndexOf(key, '_');
    if i + 4 <= |key| && key[i..i + 4] == "_to_" then
      var rest := key[i + 4..];
      match (ParseInt(key[..i]), if rest == "" then Some([]) else ParseAll(Split(rest)))
      case (Some(src), Some(ts)) => Some((src, ts))
      case _ => None
    else None
  }

  lemma {:induction false} IndexOfAfterWord(w: string, c: char, rest: string)
    requires c !in w
    ensures IndexOf(w + [c] + rest, c) == |w|
    decreases |w|
  {
    if w != [] {
      assert (w + [c] + rest)[1..] == w[1..] + [c] + rest;
      IndexOfAfterWord(w[1..], c, rest);
    }
  }

  lemma {:induction false} SplitJoinIds(ids: seq<int>)
    requires ids != []
    ensures Split(JoinIds(ids)) == Texts(ids)
    decreases |ids|
  {
    var w := IntToString(ids[0]);
    if |ids| == 1 {
      assert IndexOf(w, '_') == |w|;
      assert ids[1..] == [];
    } else {
      var rest := JoinIds(ids[1..]);
      IndexOfAfterWord(w, '_', rest);
      var s := w + "_" + rest;
      assert s[..|w|] == w;
      assert s[|w| + 1..] == rest;
      SplitJoinIds(ids[1..]);
    }
  }

  lemma {:induction false} ParseAllStrings(ids: seq<int>)
    ensures ParseAll(Texts(ids)) == Some(ids)
    decreases |ids|
  {
    if ids != [] {
      var strs := Texts(ids);
      ParseIntToString(ids[0]);
      ParseAllStrings(ids[1..]);
      assert strs[0] == IntToString(ids[0]) && strs[1..] == Texts(ids[1..]);
      assert [ids[0]] + ids[1..] == ids;
    }
  }

  /** The key is decodable: parsing it yields exactly the source id and the
      ordered target ids it was built from. */
  lemma HandlerKeyRoundTrip(source: int, targets: seq<int>)
    ensures ParseHandlerKey(HandlerKey(source, targets)) == Some((source, targets))
  {
    var w := IntToString(source);
    var rest := JoinIds(targets);
    var key := HandlerKey(source, targets);
    assert key == w + ['_'] + ("to_" + rest);
    IndexOfAfterWord(w, '_', "to_" + rest);
    assert key[..|w|] == w;
    assert key[|w|..|w| + 4] == "_to_";
    assert key[|w| + 4..] == rest;
    ParseIntToString(source);
    if targets != [] {
      SplitJoinIds(targets);
      ParseAllStrings(targets);
    }
  }

  /** Two forwarding configurations share a handler key exactly when they
      have the same source id and the same target ids in the same order. */
  lemma HandlerKeyInjective(s1: int, t1: seq<int>, s2: int, t2: seq<int>)
    ensures HandlerKey(s1, t1) == HandlerKey(s2, t2) <==> s1 == s2 && t1 == t2
  {
    if HandlerKey(s1, t1) == HandlerKey(s2, t2) {
      HandlerKeyRoundTrip(s1, t1);
      HandlerKeyRoundTrip(s2, t2);
    }
  }
}
