/** The pieces of .NET string handling the bot relies on: ordinal substring
    search (`String.Contains`), `String.Join`, and the decimal rendering of an
    `int` inside an interpolated string. */
module Text {
  import opened Outcomes

  // ---------------------------------------------------------------------------
  // String.Contains(string): ordinal, case-sensitive substring search
  // ---------------------------------------------------------------------------

  /** `sub` occurs in `s` at position `i`. */
  ghost predicate OccursAt(s: string, sub: string, i: int)
  {
    0 <= i && i + |sub| <= |s| && s[i..i + |sub|] == sub
  }

  /** `s.Contains(sub)`: true exactly when `sub` occurs somewhere in `s`. */
  function Contains(s: string, sub: string): (r: bool)
    ensures r <==> exists i :: OccursAt(s, sub, i)
    decreases |s|
  {
    if |s| < |sub| then
      false
    else if s[..|sub|] == sub then
      assert OccursAt(s, sub, 0);
      true
    else
      var r := Contains(s[1..], sub);
      assert r ==> exists i :: OccursAt(s, sub, i) by {
        if r {
          var j :| OccursAt(s[1..], sub, j);
          assert s[1..][j..j + |sub|] == s[j + 1..j + 1 + |sub|];
          assert OccursAt(s, sub, j + 1);
        }
      }
      assert (exists i :: OccursAt(s, sub, i)) ==> r by {
        if exists i :: OccursAt(s, sub, i) {
          var i :| OccursAt(s, sub, i);
          assert i != 0;
          assert s[1..][i - 1..i - 1 + |sub|] == s[i..i + |sub|];
          assert OccursAt(s[1..], sub, i - 1);
        }
      }
      r
  }

  // ---------------------------------------------------------------------------
  // String.Join(separator, values)
  // ---------------------------------------------------------------------------

  /** `String.Join(sep, parts)`: the parts in order with `sep` between each
      neighbouring pair; the empty string for no parts. */
  function Join(sep: string, parts: seq<string>): string
    decreases |parts|
  {
    if |parts| == 0 then ""
    else if |parts| == 1 then parts[0]
    else parts[0] + sep + Join(sep, parts[1..])
  }

  /** Where part `i` starts in a join: the lengths of the parts before it, each
      followed by one separator. Defined independently of `Join`. */
  function Offset(sep: string, parts: seq<string>, i: nat): nat
    requires i <= |parts|
    decreases i
  {
    if i == 0 then 0 else |parts[0]| + |sep| + Offset(sep, parts[1..], i - 1)
  }

  /** Each part sits in the joined string at its offset, in order, and
      consecutive parts are separated by exactly one `sep`. */
  lemma {:induction false} JoinLayout(sep: string, parts: seq<string>, i: nat)
    requires i < |parts|
    ensures Offset(sep, parts, i) + |parts[i]| <= |Join(sep, parts)|
    ensures Join(sep, parts)[Offset(sep, parts, i)..Offset(sep, parts, i) + |parts[i]|] == parts[i]
    ensures i + 1 < |parts| ==>
              Offset(sep, parts, i) + |parts[i]| + |sep| <= |Join(sep, parts)| &&
              Join(sep, parts)[Offset(sep, parts, i) + |parts[i]|..Offset(sep, parts, i) + |parts[i]| + |sep|] == sep
    decreases i
  {
    if |parts| == 1 {
      assert Join(sep, parts) == parts[0];
    } else {
      var head := parts[0] + sep;
      var tail := Join(sep, parts[1..]);
      assert Join(sep, parts) == head + tail;
      if i == 0 {
        SliceBefore(head, tail, 0, |parts[0]|);
        assert head[0..|parts[0]|] == parts[0];
        SliceBefore(head, tail, |parts[0]|, |head|);
        assert head[|parts[0]|..|head|] == sep;
      } else {
        JoinLayout(sep, parts[1..], i - 1);
        var o := Offset(sep, parts[1..], i - 1);
        assert Offset(sep, parts, i) == |head| + o;
        assert parts[1..][i - 1] == parts[i];
        SliceAfter(head, tail, o, o + |parts[i]|);
        if i + 1 < |parts| {
          SliceAfter(head, tail, o + |parts[i]|, o + |parts[i]| + |sep|);
        }
      }
    }
  }

  /** A slice of the left operand of a concatenation, seen through it. */
  lemma SliceBefore(a: string, b: string, x: nat, y: nat)
    requires x <= y <= |a|
    ensures (a + b)[x..y] == a[x..y]
  {
  }

  /** A slice of the right operand of a concatenation, seen through it. */
  lemma SliceAfter(a: string, b: string, x: nat, y: nat)
    requires x <= y <= |b|
    ensures (a + b)[|a| + x..|a| + y] == b[x..y]
  {
  }

  /** The same layout seen through a header put in front of the join. */
  lemma JoinLayoutAfter(header: string, sep: string, parts: seq<string>, i: nat)
    requires i < |parts|
    ensures var at := |header| + Offset(sep, parts, i);
            var s := header + Join(sep, parts);
            && s[..|header|] == header
            && at + |parts[i]| <= |s|
            && s[at..at + |parts[i]|] == parts[i]
            && (i + 1 < |parts| ==> at + |parts[i]| + |sep| <= |s| && s[at + |parts[i]|..at + |parts[i]| + |sep|] == sep)
  {
    var joined := Join(sep, parts);
    assert (header + joined)[..|header|] == header;
    JoinLayout(sep, parts, i);
    var at := Offset(sep, parts, i);
    SliceAfter(header, joined, at, at + |parts[i]|);
    if i + 1 < |parts| {
      SliceAfter(header, joined, at + |parts[i]|, at + |parts[i]| + |sep|);
    }
  }

  /** The next part starts one separator after the end of this one. */
  lemma {:induction false} OffsetNext(sep: string, parts: seq<string>, i: nat)
    requires i < |parts|
    ensures Offset(sep, parts, i + 1) == Offset(sep, parts, i) + |parts[i]| + |sep|
    decreases i
  {
    if i > 0 {
      OffsetNext(sep, parts[1..], i - 1);
    }
  }

  /** The joined string ends right after the last part: nothing but the parts
      and the separators between them. */
  lemma {:induction false} JoinLength(sep: string, parts: seq<string>)
    requires |parts| > 0
    ensures |Join(sep, parts)| == Offset(sep, parts, |parts| - 1) + |parts[|parts| - 1]|
    decreases |parts|
  {
    if |parts| > 1 {
      JoinLength(sep, parts[1..]);
    }
  }

  /** With a non-empty separator, a join is empty only when there is nothing to
      join or the one part is itself empty. */
  lemma JoinEmpty(sep: string, parts: seq<string>)
    requires |sep| > 0
    ensures Join(sep, parts) == "" <==> |parts| == 0 || (|parts| == 1 && parts[0] == "")
  {
    if |parts| > 1 {
      assert |Join(sep, parts)| >= |sep|;
    }
  }

  // ---------------------------------------------------------------------------
  // Decimal rendering of an int (`{n}` in an interpolated string)
  // ---------------------------------------------------------------------------

  predicate IsDigit(c: char)
  {
    '0' <= c <= '9'
  }

  predicate AllDigits(s: string)
  {
    forall k :: 0 <= k < |s| ==> IsDigit(s[k])
  }

  function DigitChar(d: nat): (c: char)
    requires d < 10
    ensures IsDigit(c) && (c - '0') as nat == d
  {
    '0' + d as char
  }

  /** The decimal digits of `n`, most significant first, without leading zeros. */
  function NatToString(n: nat): (s: string)
    ensures |s| > 0 && AllDigits(s)
    ensures s[0] == '0' ==> n == 0
    decreases n
  {
    if n < 10 then [DigitChar(n)] else NatToString(n / 10) + [DigitChar(n % 10)]
  }

  /** An `int` as `Int32.ToString()` renders it under the invariant culture:
      a minus sign before the digits of a negative number. */
  function IntToString(i: int): string
  {
    if i < 0 then "-" + NatToString(-i) else NatToString(i)
  }

  /** The number a string of decimal digits denotes. */
  function DigitsValue(s: string): nat
    requires AllDigits(s)
    decreases |s|
  {
    if |s| == 0 then 0 else DigitsValue(s[..|s| - 1]) * 10 + (s[|s| - 1] - '0') as nat
  }

  /** Reads back what `IntToString` writes: an optional minus sign and at least
      one digit. */
  function ParseInt(s: string): Option<int>
  {
    if |s| > 0 && s[0] == '-' then
      (if |s| > 1 && AllDigits(s[1..]) then Some(-(DigitsValue(s[1..]) as int)) else None)
    else if |s| > 0 && AllDigits(s) then Some(DigitsValue(s))
    else None
  }

  lemma {:induction false} NatToStringRoundTrip(n: nat)
    ensures DigitsValue(NatToString(n)) == n
    decreases n
  {
    if n >= 10 {
      NatToStringRoundTrip(n / 10);
      var s := NatToString(n);
      assert s[..|s| - 1] == NatToString(n / 10);
    }
  }

  /** The rendering loses nothing: every `int` is read back as itself. */
  lemma IntToStringRoundTrip(i: int)
    ensures ParseInt(IntToString(i)) == Some(i)
  {
    if i < 0 {
      var digits := NatToString(-i);
      NatToStringRoundTrip(-i);
      var s := "-" + digits;
      assert s[0] == '-' && |s| > 1;
      assert s[1..] == digits;
    } else {
      var digits := NatToString(i);
      NatToStringRoundTrip(i);
      assert IsDigit(digits[0]);
    }
  }
}
