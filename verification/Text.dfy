/** The string operations the object-path codec is written in: Python's `strip`,
    first/last occurrence searches and fixed-width decimal fields. */
module Text {
  import opened Wrappers

  /** Python's `str.isspace` on one code point. */
  predicate IsSpace(c: char) {
    var n := c as int;
    || 0x09 <= n <= 0x0d
    || 0x1c <= n <= 0x20
    || n == 0x85 || n == 0xa0 || n == 0x1680
    || 0x2000 <= n <= 0x200a
    || n == 0x2028 || n == 0x2029 || n == 0x202f || n == 0x205f || n == 0x3000
  }

  /** Neither end is white space. */
  predicate Trimmed(s: string) {
    s == "" || (!IsSpace(s[0]) && !IsSpace(s[|s| - 1]))
  }

  function LStrip(s: string): (r: string)
    ensures |r| <= |s| && r == s[|s| - |r|..]
    ensures r == "" || !IsSpace(r[0])
    ensures forall i :: 0 <= i < |s| - |r| ==> IsSpace(s[i])
  {
    if s != "" && IsSpace(s[0]) then LStrip(s[1..]) else s
  }

  function RStrip(s: string): (r: string)
    ensures r <= s
    ensures r == "" || !IsSpace(r[|r| - 1])
    ensures forall i :: |r| <= i < |s| ==> IsSpace(s[i])
  {
    if s != "" && IsSpace(s[|s| - 1]) then RStrip(s[..|s| - 1]) else s
  }

  /** Python's `strip()`: the result is trimmed, and a trimmed text is left alone. */
  function Strip(s: string): (r: string)
    ensures Trimmed(r)
    ensures Trimmed(s) ==> r == s
    ensures |r| <= |s|
  {
    RStrip(LStrip(s))
  }

  /** Only white space is stripped, from the two ends. */
  lemma StripTakesSpaceOnly(s: string) returns (k: nat)
    ensures k + |Strip(s)| <= |s| && s[k..k + |Strip(s)|] == Strip(s)
    ensures forall i :: 0 <= i < |s| && (i < k || k + |Strip(s)| <= i) ==> IsSpace(s[i])
  {
    hide IsSpace, LStrip, RStrip;
    var l := LStrip(s);
    var r := RStrip(l);
    k := |s| - |l|;
    assert s[k..k + |r|] == l[..|r|] == r;
    forall i | k + |r| <= i < |s| ensures IsSpace(s[i]) {
      assert s[i] == l[i - k];
    }
  }

  /** A blank text (`not value or not value.strip()`). */
  predicate Blank(s: string) {
    Strip(s) == ""
  }

  lemma BlankIsAllSpace(s: string)
    ensures Blank(s) <==> forall i :: 0 <= i < |s| ==> IsSpace(s[i])
  {
    var l := LStrip(s);
    if l != "" {
      assert !IsSpace(l[0]) && l[0] == s[|s| - |l|];
      assert RStrip(l) != "";
    }
  }

  /** Python's `lstrip(".")`. */
  function DropDots(s: string): (r: string)
    ensures |r| <= |s| && r == s[|s| - |r|..]
    ensures r == "" || r[0] != '.'
    ensures s == "" || s[0] != '.' ==> r == s
    ensures forall i :: 0 <= i < |s| - |r| ==> s[i] == '.'
  {
    if s != "" && s[0] == '.' then DropDots(s[1..]) else s
  }

  /** The text holds no `c`. */
  predicate Without(s: string, c: char) {
    forall i :: 0 <= i < |s| ==> s[i] != c
  }

  /** Index of the first `c`, or the length when there is none. */
  function FirstIndex(s: string, c: char): (k: nat)
    ensures k <= |s|
    ensures forall i :: 0 <= i < k ==> s[i] != c
    ensures k < |s| ==> s[k] == c
  {
    if s == "" || s[0] == c then 0 else 1 + FirstIndex(s[1..], c)
  }

  lemma FirstIndexUnique(head: string, c: char, tail: string)
    requires Without(head, c)
    ensures FirstIndex(head + [c] + tail, c) == |head|
  {
    var s := head + [c] + tail;
    assert s[|head|] == c;
    assert forall i :: 0 <= i < |head| ==> s[i] == head[i];
  }

  /** Splits at the last `c`, as `rpartition` does; `None` when there is none. */
  function SplitLast(s: string, c: char): (r: Option<(string, string)>)
    ensures r.None? <==> Without(s, c)
    ensures r.Some? ==> s == r.value.0 + [c] + r.value.1 && Without(r.value.1, c)
  {
    if s == "" then None
    else if s[|s| - 1] == c then
      assert s == s[..|s| - 1] + [c] + "";
      Some((s[..|s| - 1], ""))
    else
      var last := [s[|s| - 1]];
      assert s == s[..|s| - 1] + last;
      match SplitLast(s[..|s| - 1], c)
      case None => None
      case Some(p) =>
        assert s == p.0 + [c] + (p.1 + last);
        Some((p.0, p.1 + last))
  }

  /** Position `k` is the last occurrence of `c`. */
  predicate LastAt(s: string, c: char, k: nat) {
    k < |s| && s[k] == c && forall i :: k < i < |s| ==> s[i] != c
  }

  lemma LastAtSplit(s: string, head: string, c: char, tail: string)
    requires s == head + [c] + tail && Without(tail, c)
    ensures LastAt(s, c, |head|) && head == s[..|head|] && tail == s[|head| + 1..]
  {
    forall i | |head| < i < |s|
      ensures s[i] != c
    {
      assert s[i] == tail[i - |head| - 1];
    }
  }

  lemma SplitLastUnique(head: string, c: char, tail: string)
    requires Without(tail, c)
    ensures SplitLast(head + [c] + tail, c) == Some((head, tail))
  {
    var s := head + [c] + tail;
    assert s[|head|] == c;
    var p := SplitLast(s, c).value;
    LastAtSplit(s, head, c, tail);
    LastAtSplit(s, p.0, c, p.1);
  }

  /** `s` with the literal prefix `lit` taken off. */
  function Expect(s: string, lit: string): (r: Option<string>)
    ensures r.Some? <==> lit <= s
    ensures r.Some? ==> s == lit + r.value
  {
    if lit <= s then Some(s[|lit|..]) else None
  }

  lemma ExpectPrefix(lit: string, rest: string)
    ensures Expect(lit + rest, lit) == Some(rest)
  {
    assert (lit + rest)[|lit|..] == rest;
  }

  /** Exactly `n` characters, then the rest. */
  function TakeN(s: string, n: nat): (r: Option<(string, string)>)
    ensures r.Some? <==> |s| >= n
    ensures r.Some? ==> |r.value.0| == n && s == r.value.0 + r.value.1
  {
    if |s| < n then None else Some((s[..n], s[n..]))
  }

  lemma TakeNPrefix(head: string, rest: string)
    ensures TakeN(head + rest, |head|) == Some((head, rest))
  {
    assert (head + rest)[..|head|] == head;
    assert (head + rest)[|head|..] == rest;
  }

  predicate IsDigit(c: char) { '0' <= c <= '9' }

  predicate AllDigits(s: string) {
    forall i :: 0 <= i < |s| ==> IsDigit(s[i])
  }

  /** The decimal reading of a digit string. */
  function Number(s: string): (n: nat)
    requires AllDigits(s)
  {
    if s == "" then 0
    else 10 * Number(s[..|s| - 1]) + (s[|s| - 1] as int - '0' as int)
  }

  /** `n` in exactly `w` decimal digits (the `:0wd` format of a value that fits). */
  function Padded(n: nat, w: nat): (s: string)
    ensures |s| == w && AllDigits(s)
  {
    if w == 0 then "" else Padded(n / 10, w - 1) + [('0' as int + n % 10) as char]
  }

  function Pow10(w: nat): (p: nat)
    ensures p > 0
  {
    if w == 0 then 1 else 10 * Pow10(w - 1)
  }

  lemma NumberAppend(s: string, d: nat)
    requires AllDigits(s) && d < 10
    ensures AllDigits(s + [('0' as int + d) as char])
    ensures Number(s + [('0' as int + d) as char]) == 10 * Number(s) + d
  {
    var t := s + [('0' as int + d) as char];
    assert t[..|t| - 1] == s;
  }

  lemma {:induction false} PaddedNumber(n: nat, w: nat)
    requires n < Pow10(w)
    ensures Number(Padded(n, w)) == n
  {
    if w > 0 {
      PaddedNumber(n / 10, w - 1);
      var front := Padded(n / 10, w - 1);
      NumberAppend(front, n % 10);
    }
  }

  lemma {:induction false} NumberPadded(s: string)
    requires AllDigits(s)
    ensures Number(s) < Pow10(|s|)
    ensures Padded(Number(s), |s|) == s
  {
    if s != "" {
      var front, c := s[..|s| - 1], s[|s| - 1];
      NumberPadded(front);
      assert Number(s) == 10 * Number(front) + (c as int - '0' as int);
      assert s == front + [c];
    }
  }
}
