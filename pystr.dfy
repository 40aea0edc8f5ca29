/** The two Python `str` builtins the digest relies on: `strip()` and `sep.join(parts)`. */
module PyStr {

  /** `c.isspace()` in Python 3: the Unicode whitespace characters (bidirectional
      class WS, B or S, or general category Zs). */
  predicate IsSpace(c: char): (b: bool)
    ensures c < '\U{80}' ==> (b <==> c in {'\t', '\n', '\U{0B}', '\U{0C}', '\r', '\U{1C}', '\U{1D}', '\U{1E}', '\U{1F}', ' '})
  {
    ('\t' <= c <= '\r')
    || ('\U{1C}' <= c <= '\U{1F}')
    || c == ' ' || c == '\U{85}' || c == '\U{A0}' || c == '\U{1680}'
    || ('\U{2000}' <= c <= '\U{200A}')
    || c == '\U{2028}' || c == '\U{2029}' || c == '\U{202F}' || c == '\U{205F}'
    || c == '\U{3000}'
  }

  /** Every character is whitespace (the empty string included). */
  predicate IsBlank(s: string)
  {
    forall i :: 0 <= i < |s| ==> IsSpace(s[i])
  }

  /** Number of whitespace characters at the front of `s`. */
  function LeadingSpace(s: string): (k: nat)
    ensures k <= |s|
    ensures IsBlank(s[..k])
    ensures k < |s| ==> !IsSpace(s[k])
  {
    if s == [] || !IsSpace(s[0]) then 0 else 1 + LeadingSpace(s[1..])
  }

  /** Number of whitespace characters at the end of `s`. */
  function TrailingSpace(s: string): (k: nat)
    ensures k <= |s|
    ensures IsBlank(s[|s| - k..])
    ensures k < |s| ==> !IsSpace(s[|s| - 1 - k])
  {
    if s == [] || !IsSpace(s[|s| - 1]) then 0
    else
      var init := s[..|s| - 1];
      var k := TrailingSpace(init);
      assert s[|s| - 1 - k..] == init[|init| - k..] + [s[|s| - 1]];
      BlankConcat(init[|init| - k..], [s[|s| - 1]]);
      assert k < |init| ==> s[|s| - 2 - k] == init[|init| - 1 - k];
      1 + k
  }

  /** `s.strip()`: `s` without its leading and trailing whitespace. The result is
      empty exactly when `s` is blank, and otherwise starts and ends with a
      non-whitespace character; what was removed is whitespace only. */
  function Strip(s: string): (r: string)
    ensures r == [] <==> IsBlank(s)
    ensures r != [] ==> !IsSpace(r[0]) && !IsSpace(r[|r| - 1])
    ensures exists i, j :: 0 <= i <= j <= |s| && r == s[i..j] && IsBlank(s[..i]) && IsBlank(s[j..])
  {
    var i := LeadingSpace(s);
    var rest := s[i..];
    var k := TrailingSpace(rest);
    var j := |s| - k;
    assert rest[..|rest| - k] == s[i..j];
    assert s[j..] == rest[|rest| - k..];
    assert IsBlank(s[..i]) && IsBlank(s[j..]);
    assert i < j ==> s[i..j][0] == s[i] && s[i..j][j - i - 1] == rest[|rest| - 1 - k];
    assert i == j ==> s == s[..i] + s[j..] && i == |s|;
    s[i..j]
  }

  /** `sep.join(parts)`. */
  function Join(sep: string, parts: seq<string>): (r: string)
    ensures parts == [] ==> r == []
    ensures parts != [] ==> |r| == TotalLength(parts) + |sep| * (|parts| - 1)
  {
    if parts == [] then []
    else if |parts| == 1 then parts[0]
    else parts[0] + sep + Join(sep, parts[1..])
  }

  /** Sum of the lengths of `parts`. */
  function TotalLength(parts: seq<string>): nat
  {
    if parts == [] then 0 else |parts[0]| + TotalLength(parts[1..])
  }

  /** Position at which `parts[k]` starts inside `Join(sep, parts)`. */
  function PartOffset(sep: string, parts: seq<string>, k: nat): nat
    requires k <= |parts|
  {
    if k == 0 then 0 else |parts[0]| + |sep| + PartOffset(sep, parts[1..], k - 1)
  }

  /** Slicing behind a known prefix. */
  lemma SliceAfter(a: string, b: string, lo: nat, hi: nat)
    requires lo <= hi <= |b|
    ensures (a + b)[|a| + lo..|a| + hi] == b[lo..hi]
  {
    assert forall c :: 0 <= c < hi - lo ==> (a + b)[|a| + lo..|a| + hi][c] == b[lo..hi][c];
  }

  /** `Join` places part k at `PartOffset(sep, parts, k)`; with JoinSeparator and the
      length in Join's contract this pins down every character of the joined text. */
  lemma {:induction false} JoinPart(sep: string, parts: seq<string>, k: nat)
    requires k < |parts|
    ensures PartOffset(sep, parts, k) + |parts[k]| <= |Join(sep, parts)|
    ensures Join(sep, parts)[PartOffset(sep, parts, k)..PartOffset(sep, parts, k) + |parts[k]|] == parts[k]
  {
    if |parts| > 1 {
      var tail := Join(sep, parts[1..]);
      var head := parts[0] + sep;
      assert Join(sep, parts) == head + tail;
      if k > 0 {
        JoinPart(sep, parts[1..], k - 1);
        assert parts[1..][k - 1] == parts[k];
        var off := PartOffset(sep, parts[1..], k - 1);
        SliceAfter(head, tail, off, off + |parts[k]|);
      }
    }
  }

  /** Between part k and part k + 1 of `Join(sep, parts)` stands exactly one `sep`. */
  lemma {:induction false} JoinSeparator(sep: string, parts: seq<string>, k: nat)
    requires k + 1 < |parts|
    ensures PartOffset(sep, parts, k + 1) == PartOffset(sep, parts, k) + |parts[k]| + |sep|
    ensures PartOffset(sep, parts, k + 1) <= |Join(sep, parts)|
    ensures Join(sep, parts)[PartOffset(sep, parts, k) + |parts[k]|..PartOffset(sep, parts, k + 1)] == sep
  {
    var tail := Join(sep, parts[1..]);
    var head := parts[0] + sep;
    assert Join(sep, parts) == head + tail;
    if k == 0 {
      assert PartOffset(sep, parts, 1) == |head| + PartOffset(sep, parts[1..], 0);
      SliceAfter(parts[0], sep + tail, 0, |sep|);
      assert (sep + tail)[..|sep|] == sep;
    } else {
      JoinSeparator(sep, parts[1..], k - 1);
      assert parts[1..][k - 1] == parts[k];
      var off := PartOffset(sep, parts[1..], k - 1);
      SliceAfter(head, tail, off + |parts[k]|, PartOffset(sep, parts[1..], k));
    }
  }

  /** Joining two non-empty lists is joining each and putting one separator between. */
  lemma {:induction false} JoinAppend(sep: string, a: seq<string>, b: seq<string>)
    requires a != [] && b != []
    ensures Join(sep, a + b) == Join(sep, a) + sep + Join(sep, b)
  {
    if |a| == 1 {
      assert (a + b)[1..] == b;
    } else {
      assert (a + b)[1..] == a[1..] + b;
      JoinAppend(sep, a[1..], b);
    }
  }

  /** A concatenation is blank exactly when both halves are. */
  lemma BlankConcat(a: string, b: string)
    ensures IsBlank(a + b) <==> IsBlank(a) && IsBlank(b)
  {
    if IsBlank(a) && IsBlank(b) {
      forall c | 0 <= c < |a + b| ensures IsSpace((a + b)[c]) {
        if c < |a| { assert (a + b)[c] == a[c]; } else { assert (a + b)[c] == b[c - |a|]; }
      }
    }
    if IsBlank(a + b) {
      forall c | 0 <= c < |a| ensures IsSpace(a[c]) { assert (a + b)[c] == a[c]; }
      forall c | 0 <= c < |b| ensures IsSpace(b[c]) { assert (a + b)[|a| + c] == b[c]; }
    }
  }

  /** With a blank separator, the joined text is blank exactly when every part is. */
  lemma {:induction false} JoinBlank(sep: string, parts: seq<string>)
    requires IsBlank(sep)
    ensures IsBlank(Join(sep, parts)) <==> forall k :: 0 <= k < |parts| ==> IsBlank(parts[k])
  {
    if |parts| > 1 {
      JoinBlank(sep, parts[1..]);
      BlankConcat(parts[0], sep);
      BlankConcat(parts[0] + sep, Join(sep, parts[1..]));
      assert forall k :: 1 <= k < |parts| ==> parts[k] == parts[1..][k - 1];
    }
  }
}
