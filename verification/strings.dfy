/** The string operations the liquid-handler parsers rely on, with their
    .NET meaning: ordinal IndexOf of one character, Split on one character
    (empty pieces kept), and int.Parse under the default integer style
    (surrounding white space, an optional sign, decimal digits, 32-bit
    range). */
module Strings {
  import opened Results

  /** IndexOf of one character, ordinal: its first position, or -1. */
  function IndexOf(s: string, c: char): (i: int)
    ensures -1 <= i < |s|
    ensures i == -1 <==> c !in s
    ensures 0 <= i ==> s[i] == c && c !in s[..i]
  {
    if |s| == 0 then -1
    else if s[0] == c then 0
    else
      var j := IndexOf(s[1..], c);
      if j == -1 then -1
      else
        assert s[..j + 1] == [s[0]] + s[1..][..j];
        j + 1
  }

  /** Split on one character: the pieces between separators, in order,
      empty pieces included. */
  function Split(s: string, sep: char): (parts: seq<string>)
    decreases |s|
    ensures |parts| >= 1
    ensures forall k | 0 <= k < |parts| :: sep !in parts[k]
    ensures sep !in s <==> |parts| == 1
  {
    var i := IndexOf(s, sep);
    if i == -1 then [s]
    else
      var rest := Split(s[i + 1..], sep);
      PiecesCons(s[..i], rest, sep);
      [s[..i]] + rest
  }

  lemma PiecesCons(head: string, rest: seq<string>, sep: char)
    requires sep !in head
    requires forall k | 0 <= k < |rest| :: sep !in rest[k]
    ensures forall k | 0 <= k < |[head] + rest| :: sep !in ([head] + rest)[k]
  {
    var parts := [head] + rest;
    assert forall k | 1 <= k < |parts| :: parts[k] == rest[k - 1];
  }

  /** The pieces put back together with the separator between them. */
  function Join(parts: seq<string>, sep: char): string
    requires |parts| >= 1
  {
    if |parts| == 1 then parts[0] else parts[0] + [sep] + Join(parts[1..], sep)
  }

  /** Splitting loses nothing: joining the pieces gives the string back. */
  lemma {:induction false} JoinSplit(s: string, sep: char)
    decreases |s|
    ensures Join(Split(s, sep), sep) == s
  {
    var i := IndexOf(s, sep);
    if i != -1 {
      var rest := Split(s[i + 1..], sep);
      assert Split(s, sep) == [s[..i]] + rest;
      JoinSplit(s[i + 1..], sep);
      JoinCons(s[..i], rest, sep);
      Around(s, i);
    }
  }

  /** A string is what comes before a position, the character there, and what follows. */
  lemma Around(s: string, i: nat)
    requires i < |s|
    ensures s == s[..i] + [s[i]] + s[i + 1..]
  {
  }

  /** Joining a piece in front of at least one more. */
  lemma JoinCons(head: string, rest: seq<string>, sep: char)
    requires |rest| >= 1
    ensures Join([head] + rest, sep) == head + [sep] + Join(rest, sep)
  {
    assert ([head] + rest)[1..] == rest;
  }

  /** Pieces free of the separator come back out of a split of their join. */
  lemma {:induction false} SplitJoin(parts: seq<string>, sep: char)
    requires |parts| >= 1
    requires forall k | 0 <= k < |parts| :: sep !in parts[k]
    ensures Split(Join(parts, sep), sep) == parts
  {
    if |parts| > 1 {
      var head, tail := parts[0], parts[1..];
      assert parts == [head] + tail;
      JoinCons(head, tail, sep);
      SplitAfter(head, Join(tail, sep), sep);
      assert forall k | 0 <= k < |tail| :: tail[k] == parts[k + 1];
      SplitJoin(tail, sep);
    }
  }

  /** A separator-free piece in front of a separator is the first piece. */
  lemma SplitAfter(head: string, rest: string, sep: char)
    requires sep !in head
    ensures Split(head + [sep] + rest, sep) == [head] + Split(rest, sep)
  {
    var s := head + [sep] + rest;
    assert s[|head|] == sep && s[..|head|] == head;
    assert s[|head| + 1..] == rest;
  }

  /** The first occurrence of a character that the head lacks is right after the head. */
  lemma IndexOfAfter(head: string, c: char, rest: string)
    requires c !in head
    ensures var s := head + [c] + rest;
      IndexOf(s, c) == |head| && s[..|head|] == head && s[|head| + 1..] == rest
  {
    var s := head + [c] + rest;
    assert s[|head|] == c && s[..|head|] == head;
    assert s[|head| + 1..] == rest;
  }

  // ------------------------------------------------------------------
  // int.Parse

  const Int32Min: int := -0x8000_0000
  const Int32Max: int := 0x7FFF_FFFF

  /** The white space int.Parse skips around the number: tab, line feed,
      vertical tab, form feed, carriage return and space. */
  predicate IsNumberWhite(c: char) {
    c == ' ' || (9 <= c as int <= 13)
  }

  predicate IsDigit(c: char) {
    '0' <= c <= '9'
  }

  predicate AllDigits(s: string) {
    forall i | 0 <= i < |s| :: IsDigit(s[i])
  }

  /** The string without its leading white space. */
  function TrimStart(s: string): (t: string)
    ensures |t| <= |s| && t == s[|s| - |t|..]
    ensures forall i | 0 <= i < |s| - |t| :: IsNumberWhite(s[i])
    ensures |t| > 0 ==> !IsNumberWhite(t[0])
  {
    if |s| > 0 && IsNumberWhite(s[0]) then TrimStart(s[1..]) else s
  }

  /** The string without its trailing white space. */
  function TrimEnd(s: string): (t: string)
    ensures |t| <= |s| && t == s[..|t|]
    ensures forall i | |t| <= i < |s| :: IsNumberWhite(s[i])
    ensures |t| > 0 ==> !IsNumberWhite(t[|t| - 1])
  {
    if |s| > 0 && IsNumberWhite(s[|s| - 1]) then TrimEnd(s[..|s| - 1]) else s
  }

  /** The value of a string of decimal digits, most significant first. */
  function Value(ds: string): nat
    requires AllDigits(ds)
  {
    if |ds| == 0 then 0 else Value(ds[..|ds| - 1]) * 10 + (ds[|ds| - 1] as int - '0' as int)
  }

  /** int.Parse: None where it throws (no digits, a stray character, or a
      value outside the 32-bit range). */
  function ParseInt(s: string): (r: Option<int>)
    ensures r.Some? ==> Int32Min <= r.value <= Int32Max
  {
    ParseTrimmed(Trim(s))
  }

  /** The string without the white space around it. */
  function Trim(s: string): string {
    TrimEnd(TrimStart(s))
  }

  /** An optional sign, then decimal digits only. */
  function ParseTrimmed(t: string): (r: Option<int>)
    ensures r.Some? ==> Int32Min <= r.value <= Int32Max
  {
    var signed := |t| > 0 && (t[0] == '-' || t[0] == '+');
    var ds := if signed then t[1..] else t;
    if |ds| == 0 || !AllDigits(ds) then None
    else
      var v: int := if signed && t[0] == '-' then -(Value(ds) as int) else Value(ds);
      if Int32Min <= v <= Int32Max then Some(v) else None
  }

  /** The decimal digits of a natural number, without leading zeros. */
  function ShowNat(n: nat): (s: string)
    ensures |s| >= 1 && AllDigits(s) && Value(s) == n
    ensures n > 0 ==> s[0] != '0'
  {
    var d := ['0' + (n % 10) as char];
    if n < 10 then d
    else
      var s := ShowNat(n / 10) + d;
      assert s[..|s| - 1] == ShowNat(n / 10);
      s
  }

  /** How an int is written: a minus sign for negative values, then its digits. */
  function ShowInt(n: int): (s: string)
    ensures |s| >= 1
  {
    if n < 0 then "-" + ShowNat(-n) else ShowNat(n)
  }

  /** Parsing what ShowInt wrote gives the number back, for every 32-bit value. */
  lemma ParseShowInt(n: int)
    requires Int32Min <= n <= Int32Max
    ensures ParseInt(ShowInt(n)) == Some(n)
  {
    var s := ShowInt(n);
    assert TrimStart(s) == s;
    assert TrimEnd(s) == s;
    assert Trim(s) == s;
    if n < 0 {
      assert s[1..] == ShowNat(-n);
    }
  }

  /** White space around a number does not change what int.Parse reads. */
  lemma ParseIgnoresPadding(s: string, before: string, after: string)
    requires forall i | 0 <= i < |before| :: IsNumberWhite(before[i])
    requires forall i | 0 <= i < |after| :: IsNumberWhite(after[i])
    ensures ParseInt(before + s + after) == ParseInt(s)
  {
    TrimIgnoresPadding(s, before, after);
  }

  lemma TrimIgnoresPadding(s: string, before: string, after: string)
    requires forall i | 0 <= i < |before| :: IsNumberWhite(before[i])
    requires forall i | 0 <= i < |after| :: IsNumberWhite(after[i])
    ensures Trim(before + s + after) == Trim(s)
  {
    assert before + s + after == before + (s + after);
    PadTrimStart(before, s + after);
    TrimStartAppend(s, after);
    var t := TrimStart(s);
    if |t| > 0 {
      PadTrimEnd(t, after);
    } else {
      PadTrimStart(after, []);
      assert after + [] == after;
    }
  }

  lemma {:induction false} PadTrimStart(white: string, s: string)
    requires forall i | 0 <= i < |white| :: IsNumberWhite(white[i])
    ensures TrimStart(white + s) == TrimStart(s)
  {
    if |white| > 0 {
      assert (white + s)[0] == white[0];
      assert (white + s)[1..] == white[1..] + s;
      assert forall i | 0 <= i < |white[1..]| :: IsNumberWhite(white[1..][i]) by {
        forall i | 0 <= i < |white[1..]| ensures IsNumberWhite(white[1..][i]) {
          assert white[1..][i] == white[i + 1];
        }
      }
      PadTrimStart(white[1..], s);
    } else {
      assert white + s == s;
    }
  }

  lemma {:induction false} PadTrimEnd(s: string, white: string)
    requires forall i | 0 <= i < |white| :: IsNumberWhite(white[i])
    ensures TrimEnd(s + white) == TrimEnd(s)
  {
    if |white| > 0 {
      var w := white[..|white| - 1];
      assert (s + white)[|s + white| - 1] == white[|white| - 1];
      assert (s + white)[..|s + white| - 1] == s + w;
      PadTrimEnd(s, w);
    } else {
      assert s + white == s;
    }
  }

  lemma {:induction false} TrimStartAppend(s: string, tail: string)
    ensures TrimStart(s + tail) == if |TrimStart(s)| > 0 then TrimStart(s) + tail else TrimStart(tail)
  {
    if |s| > 0 {
      assert (s + tail)[0] == s[0];
      if IsNumberWhite(s[0]) {
        assert (s + tail)[1..] == s[1..] + tail;
        TrimStartAppend(s[1..], tail);
      }
    } else {
      assert s + tail == tail;
    }
  }
}
