/**
 The display helpers of the redeem page: `formatCardNumber`, which regroups a
 card number into blocks of four digits, `formatTime`, and the choice of the
 activation time shown under the card.
 */
module Page {
  import opened Wrappers
  import opened Js
  import opened RedeemQuery
  import opened RouteReply

  // ---------------------------------------------------------------------------
  // Whitespace, as the regular expression class `\s` and `String.prototype.trim` see it

  /** The characters matched by `\s`: the ECMAScript WhiteSpace and
      LineTerminator characters. */
  predicate IsWhitespace(c: char) {
    var u := c as int;
    u == 0x09 || u == 0x0A || u == 0x0B || u == 0x0C || u == 0x0D || u == 0x20
    || u == 0xA0 || u == 0x1680 || (0x2000 <= u <= 0x200A)
    || u == 0x2028 || u == 0x2029 || u == 0x202F || u == 0x205F || u == 0x3000 || u == 0xFEFF
  }

  predicate IsSpace(c: char) {
    c == ' '
  }

  /** `s` without the characters that `drop` selects, in their original order. */
  function Remove(s: string, drop: char -> bool): (r: string)
    ensures |r| <= |s|
    ensures forall i :: 0 <= i < |r| ==> !drop(r[i])
  {
    if |s| == 0 then ""
    else if drop(s[0]) then Remove(s[1..], drop)
    else [s[0]] + Remove(s[1..], drop)
  }

  /** Every character that is not dropped occurs in the result as often as in `s`. */
  lemma {:induction false} RemoveKeepsOthers(s: string, drop: char -> bool)
    ensures forall c :: !drop(c) ==> multiset(Remove(s, drop))[c] == multiset(s)[c]
  {
    if |s| > 0 {
      RemoveKeepsOthers(s[1..], drop);
      assert s == [s[0]] + s[1..];
    }
  }

  /** `num.replace(/\s+/g, "")` */
  function StripWhitespace(s: string): string {
    Remove(s, IsWhitespace)
  }

  /** Removing the spaces a reader sees between the blocks. */
  function RemoveSpaces(s: string): string {
    Remove(s, IsSpace)
  }

  lemma {:induction false} RemoveAppend(a: string, b: string, drop: char -> bool)
    ensures Remove(a + b, drop) == Remove(a, drop) + Remove(b, drop)
  {
    if |a| > 0 {
      assert (a + b)[1..] == a[1..] + b;
      RemoveAppend(a[1..], b, drop);
    } else {
      assert a + b == b;
    }
  }

  /** Removing what is not there changes nothing. */
  lemma {:induction false} RemoveNothing(s: string, drop: char -> bool)
    requires forall i :: 0 <= i < |s| ==> !drop(s[i])
    ensures Remove(s, drop) == s
  {
    if |s| > 0 {
      RemoveNothing(s[1..], drop);
      assert [s[0]] + s[1..] == s;
    }
  }

  /** `s.trimStart()` */
  function TrimStart(s: string): (r: string)
    ensures |r| <= |s|
  {
    if |s| > 0 && IsWhitespace(s[0]) then TrimStart(s[1..]) else s
  }

  /** `s.trimEnd()` */
  function TrimEnd(s: string): (r: string)
    ensures |r| <= |s|
  {
    if |s| > 0 && IsWhitespace(s[|s| - 1]) then TrimEnd(s[..|s| - 1]) else s
  }

  /** `s.trim()` */
  function Trim(s: string): string {
    TrimEnd(TrimStart(s))
  }

  // ---------------------------------------------------------------------------
  // formatCardNumber

  /** `digits.replace(/(\d{4})(?=\d)/g, "$1 ")`: scanning left to right, four
      digits followed by a fifth are copied with a space after them and the
      scan resumes at the fifth; otherwise one character is copied. */
  function GroupDigits(s: string): (r: string)
    ensures |s| > 0 ==> |r| > 0 && r[0] == s[0] && r[|r| - 1] == s[|s| - 1]
    decreases |s|
  {
    if |s| == 0 then ""
    else if |s| >= 5 && AllDigits(s[..5]) then s[..4] + " " + GroupDigits(s[4..])
    else [s[0]] + GroupDigits(s[1..])
  }

  /** `formatCardNumber(num)` */
  function FormatCardNumber(num: string): string {
    Trim(GroupDigits(StripWhitespace(num)))
  }

  /** The reference layout of an all-digit number: blocks of four, separated
      by one space, the last block holding the remaining one to four digits. */
  function Chunk(d: string): string
    decreases |d|
  {
    if |d| <= 4 then d else d[..4] + " " + Chunk(d[4..])
  }

  function Count(s: string, c: char): nat {
    if |s| == 0 then 0 else (if s[0] == c then 1 else 0) + Count(s[1..], c)
  }

  /** Grouping only inserts spaces: any removal that takes spaces away gives
      the same result before and after grouping. */
  lemma {:induction false} GroupingOnlyInsertsSpaces(s: string, drop: char -> bool)
    requires drop(' ')
    ensures Remove(GroupDigits(s), drop) == Remove(s, drop)
    decreases |s|
  {
    if |s| == 0 {
    } else if |s| >= 5 && AllDigits(s[..5]) {
      var head, tail := s[..4], s[4..];
      GroupingOnlyInsertsSpaces(tail, drop);
      assert Remove(" ", drop) == "";
      calc {
        Remove(GroupDigits(s), drop);
        Remove(head + " " + GroupDigits(tail), drop);
        { RemoveAppend(head + " ", GroupDigits(tail), drop); }
        Remove(head + " ", drop) + Remove(GroupDigits(tail), drop);
        { RemoveAppend(head, " ", drop); }
        Remove(head, drop) + Remove(tail, drop);
        { RemoveAppend(head, tail, drop); assert head + tail == s; }
        Remove(s, drop);
      }
    } else {
      var tail := s[1..];
      GroupingOnlyInsertsSpaces(tail, drop);
      calc {
        Remove(GroupDigits(s), drop);
        Remove([s[0]] + GroupDigits(tail), drop);
        { RemoveAppend([s[0]], GroupDigits(tail), drop); }
        Remove([s[0]], drop) + Remove(GroupDigits(tail), drop);
        { RemoveAppend([s[0]], tail, drop); assert [s[0]] + tail == s; }
        Remove(s, drop);
      }
    }
  }

  /** Trimming a string that neither starts nor ends with whitespace keeps it. */
  lemma TrimKeeps(s: string)
    requires |s| > 0 ==> !IsWhitespace(s[0]) && !IsWhitespace(s[|s| - 1])
    ensures Trim(s) == s
  {
  }

  /** The trim at the end of `formatCardNumber` never removes anything. */
  lemma FormatDoesNotNeedTrim(num: string)
    ensures FormatCardNumber(num) == GroupDigits(StripWhitespace(num))
  {
    var s := StripWhitespace(num);
    TrimKeeps(GroupDigits(s));
  }

  /** Taking the spaces out of the formatted number gives the input without
      its whitespace, so no character is lost, added or reordered; the
      formatted number contains no whitespace other than those spaces. */
  lemma FormatKeepsCharacters(num: string)
    ensures RemoveSpaces(FormatCardNumber(num)) == StripWhitespace(num)
    ensures StripWhitespace(FormatCardNumber(num)) == StripWhitespace(num)
  {
    var s := StripWhitespace(num);
    FormatDoesNotNeedTrim(num);
    GroupingOnlyInsertsSpaces(s, IsSpace);
    GroupingOnlyInsertsSpaces(s, IsWhitespace);
    RemoveNothing(s, IsSpace);
    RemoveNothing(s, IsWhitespace);
  }

  /** Formatting an already formatted number changes nothing. */
  lemma FormatIdempotent(num: string)
    ensures FormatCardNumber(FormatCardNumber(num)) == FormatCardNumber(num)
  {
    FormatKeepsCharacters(num);
  }

  /** Without a run of five digits nothing is grouped: a string of at most
      four characters comes back unchanged. */
  lemma {:induction false} ShortUnchanged(s: string)
    requires |s| <= 4
    ensures GroupDigits(s) == s
  {
    if |s| > 0 {
      ShortUnchanged(s[1..]);
      assert [s[0]] + s[1..] == s;
    }
  }

  /** On digits, the scan produces the reference block layout. */
  lemma {:induction false} GroupDigitsIsChunk(d: string)
    requires AllDigits(d)
    ensures GroupDigits(d) == Chunk(d)
    decreases |d|
  {
    if |d| <= 4 {
      ShortUnchanged(d);
    } else {
      assert AllDigits(d[..5]);
      assert AllDigits(d[4..]);
      GroupDigitsIsChunk(d[4..]);
    }
  }

  /** The block layout position by position: a space at every fifth position
      and nowhere else, digit `k` of the input at position `k + k / 4`, so
      no leading, trailing or doubled spaces and a last block of one to four
      digits. */
  lemma {:induction false} ChunkLayout(d: string)
    requires AllDigits(d) && |d| > 0
    ensures |Chunk(d)| == |d| + (|d| - 1) / 4
    ensures forall i :: 0 <= i < |Chunk(d)| ==>
      (Chunk(d)[i] == ' ' <==> i % 5 == 4) && (i % 5 != 4 ==> Chunk(d)[i] == d[i - i / 5])
    decreases |d|
  {
    var c := Chunk(d);
    if |d| > 4 {
      var t := d[4..];
      assert AllDigits(t);
      ChunkLayout(t);
      assert c == d[..4] + " " + Chunk(t);
      forall i | 0 <= i < |c|
        ensures (c[i] == ' ' <==> i % 5 == 4) && (i % 5 != 4 ==> c[i] == d[i - i / 5])
      {
        if i < 4 {
          assert c[i] == d[i] && IsDigit(d[i]);
        } else if i >= 5 {
          var j := i - 5;
          assert c[i] == Chunk(t)[j];
          assert i % 5 == j % 5 && i / 5 == j / 5 + 1;
          if j % 5 != 4 {
            assert t[j - j / 5] == d[i - i / 5];
          }
        }
      }
    } else {
      forall i | 0 <= i < |c|
        ensures (c[i] == ' ' <==> i % 5 == 4) && (i % 5 != 4 ==> c[i] == d[i - i / 5])
      {
        assert IsDigit(d[i]);
      }
    }
  }

  lemma {:induction false} CountAppend(a: string, b: string, c: char)
    ensures Count(a + b, c) == Count(a, c) + Count(b, c)
  {
    if |a| > 0 {
      assert (a + b)[1..] == a[1..] + b;
      CountAppend(a[1..], b, c);
    } else {
      assert a + b == b;
    }
  }

  lemma {:induction false} NoSpaceInDigits(d: string)
    requires AllDigits(d)
    ensures Count(d, ' ') == 0
  {
    if |d| > 0 {
      assert AllDigits(d[1..]);
      NoSpaceInDigits(d[1..]);
    }
  }

  /** `n` digits get `(n - 1) / 4` spaces. */
  lemma {:induction false} ChunkSpaces(d: string)
    requires AllDigits(d) && |d| > 0
    ensures Count(Chunk(d), ' ') == (|d| - 1) / 4
    decreases |d|
  {
    if |d| > 4 {
      assert AllDigits(d[4..]) && AllDigits(d[..4]);
      ChunkSpaces(d[4..]);
      CountAppend(d[..4] + " ", Chunk(d[4..]), ' ');
      CountAppend(d[..4], " ", ' ');
      NoSpaceInDigits(d[..4]);
    } else {
      NoSpaceInDigits(d);
    }
  }

  /** A card number made of digits and whitespace is shown as blocks of four
      digits with `(n - 1) / 4` single spaces between them. */
  lemma FormatDigits(num: string)
    requires AllDigits(StripWhitespace(num)) && |StripWhitespace(num)| > 0
    ensures var d, f := StripWhitespace(num), FormatCardNumber(num);
      && f == Chunk(d)
      && |f| == |d| + (|d| - 1) / 4
      && Count(f, ' ') == (|d| - 1) / 4
      && forall i :: 0 <= i < |f| ==> (f[i] == ' ' <==> i % 5 == 4) && (i % 5 != 4 ==> f[i] == d[i - i / 5])
  {
    var d := StripWhitespace(num);
    FormatDoesNotNeedTrim(num);
    GroupDigitsIsChunk(d);
    ChunkLayout(d);
    ChunkSpaces(d);
  }

  /** Five digits start at position `i` of `s`. */
  predicate DigitRunAt(s: string, i: nat) {
    i + 5 <= |s| && AllDigits(s[i..i + 5])
  }

  /** Only runs of five or more digits are split: a string with no such run
      comes back unchanged. */
  lemma {:induction false} NoLongRunUnchanged(s: string)
    requires forall i :: 0 <= i < |s| ==> !DigitRunAt(s, i)
    ensures GroupDigits(s) == s
  {
    if |s| > 0 {
      var t := s[1..];
      forall i | 0 <= i < |t| ensures !DigitRunAt(t, i) {
        assert !DigitRunAt(s, i + 1);
        if i + 5 <= |t| {
          assert t[i..i + 5] == s[i + 1..i + 6];
        }
      }
      NoLongRunUnchanged(t);
      assert !DigitRunAt(s, 0);
      if |s| >= 5 {
        assert s[0..5] == s[..5];
      }
      assert [s[0]] + t == s;
    }
  }

  // ---------------------------------------------------------------------------
  // Times

  /** `formatTime(input)`: "--" for a falsy input; otherwise the input is
      parsed as a date (`parse` answers `None` when the time is not finite),
      shown raw when that fails and rendered by `show` when it succeeds. */
  function FormatTime<T>(input: Value, parse: Value -> Option<T>, show: T -> string): (text: string)
    ensures !Truthy(input) ==> text == "--"
    ensures Truthy(input) && parse(input).None? ==> text == ToStr(input)
  {
    if !Truthy(input) then "--"
    else match parse(input)
      case None => ToStr(input)
      case Some(d) => show(d)
  }

  /** `resp?.card?.redeemTime || resp?.activatedAt`, formatted. */
  function ActivatedAtText<T>(resp: Value, parse: Value -> Option<T>, show: T -> string): string {
    FormatTime(Or(Prop(Prop(resp, "card"), "redeemTime"), Prop(resp, "activatedAt")), parse, show)
  }

  /** A card's own `redeemTime` wins when it is truthy; otherwise the reply's
      `activatedAt` is shown; with neither the page shows "--". */
  lemma ActivatedAtPreference<T>(resp: Value, parse: Value -> Option<T>, show: T -> string)
    ensures var rt, at := Prop(Prop(resp, "card"), "redeemTime"), Prop(resp, "activatedAt");
      && (Truthy(rt) ==> ActivatedAtText(resp, parse, show) == FormatTime(rt, parse, show))
      && (!Truthy(rt) ==> ActivatedAtText(resp, parse, show) == FormatTime(at, parse, show))
      && (!Truthy(rt) && !Truthy(at) ==> ActivatedAtText(resp, parse, show) == "--")
  {
  }

  /** The route never sends a card `redeemTime`, so for every reconciled
      reply the page shows the route's `activatedAt`; a rejected reply shows "--". */
  lemma ShownActivationTime<T>(reply: Reply, toNumber: Value -> Value, parse: Value -> Option<T>, show: T -> string)
    ensures reply.Answered? ==>
      ActivatedAtText(ReplyJson(reply, toNumber), parse, show) == FormatTime(reply.verdict.activatedAt, parse, show)
    ensures reply.Rejected? ==> ActivatedAtText(ReplyJson(reply, toNumber), parse, show) == "--"
  {
    ReplyShape(reply, toNumber);
  }
}
