/**
 String helpers shared by the components: ASCII case mapping, substring search
 (`String.prototype.includes`), splitting on a single space, initials,
 decimal rendering of integers, `m:ss` clock formatting, blank test (`trim`)
 and the string form of an identifier that may be a number or a string.
 */
module Text {
  import opened Wrappers
  import Lists

  /** ASCII lower-casing of one character (`toLowerCase` on ASCII input). */
  function LowerChar(c: char): (d: char)
    ensures 'A' <= c <= 'Z' ==> d as int == c as int + 32
    ensures !('A' <= c <= 'Z') ==> d == c
  {
    if 'A' <= c <= 'Z' then (c as int + 32) as char else c
  }

  /** ASCII upper-casing of one character (`toUpperCase` on ASCII input). */
  function UpperChar(c: char): (d: char)
    ensures 'a' <= c <= 'z' ==> d as int == c as int - 32
    ensures !('a' <= c <= 'z') ==> d == c
  {
    if 'a' <= c <= 'z' then (c as int - 32) as char else c
  }

  function Lower(s: string): (r: string)
    ensures |r| == |s| && forall k :: 0 <= k < |s| ==> r[k] == LowerChar(s[k])
  {
    seq(|s|, k requires 0 <= k < |s| => LowerChar(s[k]))
  }

  function Upper(s: string): (r: string)
    ensures |r| == |s| && forall k :: 0 <= k < |s| ==> r[k] == UpperChar(s[k])
  {
    seq(|s|, k requires 0 <= k < |s| => UpperChar(s[k]))
  }

  /** Lower-casing forgets every earlier change of letter case. */
  lemma LowerOfUpper(s: string)
    ensures Lower(Upper(s)) == Lower(s)
  {
    forall k | 0 <= k < |s| ensures LowerChar(UpperChar(s[k])) == LowerChar(s[k]) {
    }
  }

  lemma LowerIdempotent(s: string)
    ensures Lower(Lower(s)) == Lower(s)
  {
  }

  /** `n` occurs in `h` at position `i`. */
  ghost predicate OccursAt(h: string, n: string, i: int) {
    0 <= i && i + |n| <= |h| && h[i..i + |n|] == n
  }

  /** `h.includes(n)`: `n` occurs in `h` somewhere. */
  function Contains(h: string, n: string): (r: bool)
    ensures r <==> exists i :: OccursAt(h, n, i)
    decreases |h|
  {
    if |n| > |h| then false
    else if h[..|n|] == n then
      assert OccursAt(h, n, 0);
      true
    else
      var r := Contains(h[1..], n);
      assert r ==> exists i :: OccursAt(h, n, i) by {
        if r {
          var i :| OccursAt(h[1..], n, i);
          assert h[1..][i..i + |n|] == h[i + 1..i + 1 + |n|];
          assert OccursAt(h, n, i + 1);
        }
      }
      assert (exists i :: OccursAt(h, n, i)) ==> r by {
        if exists i :: OccursAt(h, n, i) {
          var i :| OccursAt(h, n, i);
          assert i != 0;
          assert h[1..][i - 1..i - 1 + |n|] == h[i..i + |n|];
          assert OccursAt(h[1..], n, i - 1);
        }
      }
      r
  }

  /** The empty string occurs in every string. */
  lemma ContainsEmpty(h: string)
    ensures Contains(h, "")
  {
    assert OccursAt(h, "", 0);
  }

  /** Case-insensitive search: both sides lower-cased, then substring search. */
  function ContainsIgnoringCase(h: string, q: string): (r: bool)
    ensures r <==> exists i :: OccursAt(Lower(h), Lower(q), i)
  {
    Contains(Lower(h), Lower(q))
  }

  /** Every text contains the empty query, and queries differing only in letter case agree. */
  lemma ContainsIgnoringCaseProperties(h: string, q: string)
    ensures ContainsIgnoringCase(h, "")
    ensures ContainsIgnoringCase(h, Upper(q)) == ContainsIgnoringCase(h, q)
    ensures ContainsIgnoringCase(h, Lower(q)) == ContainsIgnoringCase(h, q)
  {
    ContainsEmpty(Lower(h));
    assert Lower("") == "";
    LowerOfUpper(q);
    LowerIdempotent(q);
  }

  /** `s.split(' ')`: the pieces between single spaces; never empty. */
  function Split(s: string): (ws: seq<string>)
    ensures |ws| >= 1
    ensures forall k :: 0 <= k < |ws| ==> ' ' !in ws[k]
  {
    if s == [] then [[]]
    else
      var rest := Split(s[1..]);
      if s[0] == ' ' then [[]] + rest
      else
        assert forall k :: 1 <= k < |rest| ==> rest[1..][k - 1] == rest[k];
        [[s[0]] + rest[0]] + rest[1..]
  }

  /** `ws.join(' ')`. */
  function Join(ws: seq<string>): string
    requires |ws| >= 1
  {
    if |ws| == 1 then ws[0] else ws[0] + " " + Join(ws[1..])
  }

  /** Joining the pieces of a split gives back the original string. */
  lemma {:induction false} JoinSplit(s: string)
    ensures Join(Split(s)) == s
  {
    if s != [] {
      var rest := Split(s[1..]);
      JoinSplit(s[1..]);
      if s[0] == ' ' {
        assert ([[]] + rest)[1..] == rest;
      } else {
        var ws := [[s[0]] + rest[0]] + rest[1..];
        if |rest| == 1 {
          assert Join(ws) == [s[0]] + rest[0];
        } else {
          assert ws[1..] == rest[1..];
          assert Join(rest) == rest[0] + " " + Join(rest[1..]);
          assert Join(ws) == ([s[0]] + rest[0]) + " " + Join(rest[1..]);
        }
        assert s == [s[0]] + s[1..];
      }
    }
  }

  /** Splitting a space-free prefix glued to `t` extends the first piece of `t`. */
  lemma {:induction false} SplitPrefix(w: string, t: string)
    requires ' ' !in w
    ensures Split(w + t) == [w + Split(t)[0]] + Split(t)[1..]
  {
    var st := Split(t);
    if w == [] {
      assert w + t == t;
      assert w + st[0] == st[0];
      assert st == [st[0]] + st[1..];
    } else {
      SplitPrefix(w[1..], t);
      assert (w + t)[1..] == w[1..] + t;
      assert (w + t)[0] == w[0] && w[0] != ' ';
      var rest := Split(w[1..] + t);
      assert rest[0] == w[1..] + st[0] && rest[1..] == st[1..];
      assert Split(w + t) == [[w[0]] + rest[0]] + rest[1..];
      assert [w[0]] + (w[1..] + st[0]) == w + st[0];
    }
  }

  /** Splitting a join of space-free words gives back the words. */
  lemma {:induction false} SplitJoin(ws: seq<string>)
    requires |ws| >= 1
    requires forall k :: 0 <= k < |ws| ==> ' ' !in ws[k]
    ensures Split(Join(ws)) == ws
  {
    if |ws| == 1 {
      SplitPrefix(ws[0], []);
      assert ws[0] + [] == ws[0];
      assert Split([]) == [[]];
    } else {
      SplitJoin(ws[1..]);
      var t := " " + Join(ws[1..]);
      assert Join(ws) == ws[0] + t;
      SplitPrefix(ws[0], t);
      assert t[0] == ' ' && t[1..] == Join(ws[1..]);
      assert Split(t) == [[]] + Split(t[1..]);
      assert Split(t) == [[]] + ws[1..];
      assert Split(t)[0] == [] && Split(t)[1..] == ws[1..];
      assert ws[0] + [] == ws[0];
      assert ws == [ws[0]] + ws[1..];
    }
  }

  /**
   The first character of every non-empty word, in order. A JavaScript
   `word[0]` on an empty word is `undefined`, which `join('')` renders as
   nothing.
   */
  function FirstLetters(ws: seq<string>): (r: string)
    ensures |r| <= |ws|
  {
    if ws == [] then []
    else (if ws[0] == [] then [] else [ws[0][0]]) + FirstLetters(ws[1..])
  }

  /**
   Avatar initials: the first letter of each space-separated word, upper-cased,
   keeping at most the first two.
   */
  function Initials(name: string): (r: string)
    ensures |r| <= 2
    ensures |r| == if |FirstLetters(Split(name))| < 2 then |FirstLetters(Split(name))| else 2
    ensures forall k :: 0 <= k < |r| ==> r[k] == UpperChar(FirstLetters(Split(name))[k])
  {
    var u := Upper(FirstLetters(Split(name)));
    if |u| < 2 then u else u[..2]
  }

  /** The initials of space-joined words are the upper-cased first letters of those words. */
  lemma InitialsOfWords(ws: seq<string>)
    requires |ws| >= 1
    requires forall k :: 0 <= k < |ws| ==> ' ' !in ws[k]
    ensures Initials(Join(ws)) == var u := Upper(FirstLetters(ws)); if |u| < 2 then u else u[..2]
  {
    SplitJoin(ws);
  }

  /** The decimal digit character of `d`. */
  function DigitChar(d: nat): (c: char)
    requires d < 10
    ensures '0' <= c <= '9' && c as int - '0' as int == d
  {
    ('0' as int + d) as char
  }

  predicate IsDigits(s: string) {
    forall k :: 0 <= k < |s| ==> '0' <= s[k] <= '9'
  }

  /** `n.toString()` for a non-negative integer: its decimal digits. */
  function NatToString(n: nat): (s: string)
    ensures |s| >= 1 && IsDigits(s)
  {
    if n < 10 then [DigitChar(n)] else NatToString(n / 10) + [DigitChar(n % 10)]
  }

  /** The value of a string of decimal digits. */
  function ParseNat(s: string): nat
    requires IsDigits(s)
  {
    if s == [] then 0 else ParseNat(s[..|s| - 1]) * 10 + (s[|s| - 1] as int - '0' as int)
  }

  /** Reading back the decimal rendering gives the number. */
  lemma {:induction false} ParseNatToString(n: nat)
    ensures ParseNat(NatToString(n)) == n
  {
    if n >= 10 {
      var s := NatToString(n / 10) + [DigitChar(n % 10)];
      assert s[..|s| - 1] == NatToString(n / 10);
      ParseNatToString(n / 10);
    }
  }

  /** Leading zeros do not change the value of a digit string. */
  lemma {:induction false} ParseNatLeadingZero(s: string)
    requires IsDigits(s)
    ensures ParseNat("0" + s) == ParseNat(s)
  {
    if s != [] {
      assert ("0" + s)[..|"0" + s| - 1] == "0" + s[..|s| - 1];
      ParseNatLeadingZero(s[..|s| - 1]);
    }
  }

  /** `x.toString()` for an integer: a minus sign before the digits of a negative one. */
  function IntToString(x: int): (s: string)
    ensures x >= 0 ==> s == NatToString(x)
    ensures x < 0 ==> s == "-" + NatToString(-x)
  {
    if x >= 0 then NatToString(x) else "-" + NatToString(-x)
  }

  /** `s.padStart(width, c)`. */
  function PadStart(s: string, width: nat, c: char): (r: string)
    ensures |s| >= width ==> r == s
    ensures |s| < width ==> |r| == width && r[width - |s|..] == s
    ensures forall k :: 0 <= k < |r| - |s| ==> r[k] == c
  {
    if |s| >= width then s else seq(width - |s|, _ => c) + s
  }

  /**
   A non-negative number of seconds as minutes, a colon and the seconds
   padded to two digits.
   */
  function FormatMinSec(s: nat): (r: string)
  {
    NatToString(s / 60) + ":" + PadStart(NatToString(s % 60), 2, '0')
  }

  function IsColon(c: char): bool { c == ':' }

  /** The minutes and seconds shown by a clock string `m:ss` (None if malformed). */
  function ParseMinSec(r: string): Option<(nat, nat)> {
    var k := Lists.FirstIndex(r, IsColon);
    if k < 0 then None
    else
      var m, ss := r[..k], r[k + 1..];
      if IsDigits(m) && IsDigits(ss) && |m| >= 1 && |ss| == 2 then Some((ParseNat(m), ParseNat(ss)))
      else None
  }

  /** In `m + ":" + ss` with a digit string `m`, the first colon follows `m`. */
  lemma ColonAfterDigits(m: string, ss: string)
    requires IsDigits(m)
    ensures Lists.FirstIndex(m + ":" + ss, IsColon) == |m|
  {
    var r := m + ":" + ss;
    assert IsColon(r[|m|]);
    assert forall k :: 0 <= k < |m| ==> r[k] == m[k] && !IsColon(r[k]);
  }

  /** Seconds below sixty are shown as exactly two digits holding their value. */
  lemma PaddedSeconds(x: nat)
    requires x < 60
    ensures var p := PadStart(NatToString(x), 2, '0'); |p| == 2 && IsDigits(p) && ParseNat(p) == x
  {
    ParseNatToString(x);
    if x < 10 {
      assert NatToString(x) == [DigitChar(x)];
      assert PadStart(NatToString(x), 2, '0') == "0" + NatToString(x);
      ParseNatLeadingZero(NatToString(x));
    } else {
      assert NatToString(x) == NatToString(x / 10) + [DigitChar(x % 10)];
      assert NatToString(x / 10) == [DigitChar(x / 10)];
    }
  }

  /**
   A clock string has at least one minute digit and exactly two second digits,
   and reading it back gives minutes and seconds with `m * 60 + ss == s`.
   */
  lemma FormatMinSecReadsBack(s: nat)
    ensures ParseMinSec(FormatMinSec(s)) == Some((s / 60, s % 60))
    ensures s / 60 * 60 + s % 60 == s && s % 60 < 60
  {
    var m := NatToString(s / 60);
    var ss := PadStart(NatToString(s % 60), 2, '0');
    var r := FormatMinSec(s);
    assert r == m + ":" + ss;
    ColonAfterDigits(m, ss);
    assert r[..|m|] == m;
    assert r[|m| + 1..] == ss;
    ParseNatToString(s / 60);
    PaddedSeconds(s % 60);
  }

  /** An identifier that is a JavaScript number (an integer here) or a string. */
  datatype Id = Num(n: int) | Str(s: string)

  /** `id.toString()`. */
  function IdToString(id: Id): (r: string)
    ensures id.Str? ==> r == id.s
    ensures id.Num? ==> r == IntToString(id.n)
  {
    match id
    case Num(n) => IntToString(n)
    case Str(s) => s
  }

  /** The characters `String.prototype.trim` removes (ASCII and the common Unicode spaces). */
  predicate IsSpace(c: char) {
    c == ' ' || c == '\t' || c == '\n' || c == '\r' || c == '\U{B}' || c == '\U{C}'
    || c == '\U{A0}' || c == '\U{FEFF}' || c == '\U{2028}' || c == '\U{2029}'
  }

  /** `!s.trim()`: the string is empty or only white space. */
  predicate IsBlank(s: string) {
    forall k :: 0 <= k < |s| ==> IsSpace(s[k])
  }

  /** The `||` default of an optional string: the string when it is truthy (present and not empty). */
  function OrDefault(s: Option<string>, default: string): (r: string)
    ensures s.Some? && s.value != "" ==> r == s.value
    ensures s.None? || s.value == "" ==> r == default
  {
    if s.Some? && s.value != "" then s.value else default
  }

  /** An `error` field is truthy: present and not empty, so `if (res.error)` takes the error branch. */
  predicate IsError(error: Option<string>) {
    error.Some? && error.value != ""
  }
}
