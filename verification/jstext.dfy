/** The JavaScript string primitives the help-desk code relies on, written
    out over `seq<char>`: `trim`, `toLowerCase`, `includes`, `split` and
    `join` with a string separator, and character-class deletion. */
module JsText {
  import opened Base

  /** The characters `String.prototype.trim` removes: ECMAScript WhiteSpace
      and LineTerminator code points. */
  predicate IsJsWhitespace(c: char) {
    || c == '\t' || c == '\n' || c == '\U{000B}' || c == '\U{000C}' || c == '\r'
    || c == ' ' || c == '\U{00A0}' || c == '\U{1680}'
    || ('\U{2000}' <= c <= '\U{200A}')
    || c == '\U{2028}' || c == '\U{2029}' || c == '\U{202F}' || c == '\U{205F}'
    || c == '\U{3000}' || c == '\U{FEFF}'
  }

  /** Leading whitespace removed. */
  function TrimStart(s: string): (r: string)
    ensures |r| <= |s| && r == s[|s| - |r|..]
    ensures |r| == 0 || !IsJsWhitespace(r[0])
    ensures forall i :: 0 <= i < |s| - |r| ==> IsJsWhitespace(s[i])
    decreases |s|
  {
    if |s| > 0 && IsJsWhitespace(s[0]) then
      var r := TrimStart(s[1..]);
      assert s[1..][|s| - 1 - |r|..] == s[|s| - |r|..];
      assert forall i :: 1 <= i < |s| ==> s[1..][i - 1] == s[i];
      r
    else s
  }

  /** Trailing whitespace removed. */
  function TrimEnd(s: string): (r: string)
    ensures |r| <= |s| && r == s[..|r|]
    ensures |r| == 0 || !IsJsWhitespace(r[|r| - 1])
    ensures forall i :: |r| <= i < |s| ==> IsJsWhitespace(s[i])
    decreases |s|
  {
    if |s| > 0 && IsJsWhitespace(s[|s| - 1]) then TrimEnd(s[..|s| - 1]) else s
  }

  /** `String.prototype.trim`. */
  function Trim(s: string): string {
    TrimEnd(TrimStart(s))
  }

  /** `!s.trim()`: the input is empty or whitespace only. */
  predicate IsBlank(s: string) {
    Trim(s) == ""
  }

  /** A string is blank exactly when every character is whitespace. */
  lemma BlankIffAllWhitespace(s: string)
    ensures IsBlank(s) <==> forall i :: 0 <= i < |s| ==> IsJsWhitespace(s[i])
  {
    var t := TrimStart(s);
    forall j | 0 <= j < |t|
      ensures t[j] == s[|s| - |t| + j]
    {
    }
    if !(forall i :: 0 <= i < |s| ==> IsJsWhitespace(s[i])) {
      var k :| 0 <= k < |s| && !IsJsWhitespace(s[k]);
      assert |t| > 0 && k >= |s| - |t|;
      assert t[k - (|s| - |t|)] == s[k];
      assert !IsJsWhitespace(t[k - (|s| - |t|)]);
    }
  }

  /** A string that is not blank is not empty. */
  lemma NonBlankNonEmpty(s: string)
    requires !IsBlank(s)
    ensures s != ""
  {
    BlankIffAllWhitespace(s);
  }

  /** ASCII `toLowerCase` of one character. */
  function LowerChar(c: char): char {
    if 'A' <= c <= 'Z' then (c as int + 32) as char else c
  }

  /** `String.prototype.toLowerCase`, restricted to the ASCII letters. */
  function Lower(s: string): (r: string)
    ensures |r| == |s|
  {
    seq(|s|, i requires 0 <= i < |s| => LowerChar(s[i]))
  }

  /** `s.includes(t)`: `t` occurs in `s` as a contiguous block. */
  predicate Includes(s: string, t: string)
    decreases |s|
  {
    t <= s || (|s| > 0 && Includes(s[1..], t))
  }

  /** `t` starts at index `j` of `s`. */
  predicate StartsAt(s: string, t: string, j: int) {
    0 <= j <= |s| && t <= s[j..]
  }

  /** The positional reading of `includes`: some index of `s` starts `t`. */
  lemma {:induction false} IncludesIffOccurs(s: string, t: string)
    ensures Includes(s, t) <==> exists i :: StartsAt(s, t, i)
    decreases |s|
  {
    if t <= s {
      assert s[0..] == s;
      assert StartsAt(s, t, 0);
    } else if |s| > 0 {
      IncludesIffOccurs(s[1..], t);
      forall i | 1 <= i <= |s|
        ensures StartsAt(s, t, i) == StartsAt(s[1..], t, i - 1)
      {
        assert s[1..][i - 1..] == s[i..];
      }
      assert !StartsAt(s, t, 0) by { assert s[0..] == s; }
      if exists i :: StartsAt(s, t, i) {
        var i :| StartsAt(s, t, i);
        assert StartsAt(s[1..], t, i - 1);
      }
      if Includes(s[1..], t) {
        var j :| StartsAt(s[1..], t, j);
        assert StartsAt(s, t, j + 1);
      }
    } else {
      forall i | 0 <= i <= |s|
        ensures !StartsAt(s, t, i)
      {
        assert s[i..] == s;
      }
    }
  }

  /** A block occurring in the middle of a concatenation is included in it. */
  lemma IncludesInfix(a: string, b: string, c: string)
    ensures Includes(a + b + c, b)
  {
    var s := a + b + c;
    assert StartsAt(s, b, |a|);
    IncludesIffOccurs(s, b);
  }

  /** A block included in the middle part of a concatenation is included in
      the concatenation. */
  lemma IncludesWithin(a: string, b: string, c: string, x: string)
    requires Includes(b, x)
    ensures Includes(a + b + c, x)
  {
    IncludesIffOccurs(b, x);
    var j :| StartsAt(b, x, j);
    var s := a + b + c;
    assert s[|a| + j..] == b[j..] + c;
    assert StartsAt(s, x, |a| + j);
    IncludesIffOccurs(s, x);
  }

  /** The characters of `s` not in `drop`, in order: `s.replace(/[...]/g, '')`. */
  function RemoveChars(s: string, drop: set<char>): (r: string)
    ensures forall i :: 0 <= i < |r| ==> r[i] !in drop
  {
    Filter(s, (c: char) => c !in drop)
  }

  /** The first index at which `sep` occurs in `s`. */
  function IndexOf(s: string, sep: string): (r: Option<nat>)
    requires |sep| > 0
    ensures r.Some? ==> r.value + |sep| <= |s| && StartsAt(s, sep, r.value)
    ensures r.Some? ==> forall j :: 0 <= j < r.value ==> !StartsAt(s, sep, j)
    ensures r.None? ==> forall j :: 0 <= j <= |s| ==> !StartsAt(s, sep, j)
    decreases |s|
  {
    if sep <= s then
      assert s[0..] == s;
      Some(0)
    else if |s| == 0 then None
    else
      assert forall j :: 1 <= j <= |s| ==> StartsAt(s, sep, j) == StartsAt(s[1..], sep, j - 1) by {
        forall j | 1 <= j <= |s| ensures StartsAt(s, sep, j) == StartsAt(s[1..], sep, j - 1) {
          assert s[j..] == s[1..][j - 1..];
        }
      }
      assert !StartsAt(s, sep, 0) by { assert s[0..] == s; }
      match IndexOf(s[1..], sep)
      case None => None
      case Some(k) => Some(k + 1)
  }

  /** `s.split(sep)` for a non-empty string separator: the pieces between
      successive leftmost non-overlapping occurrences of `sep`. */
  function Split(s: string, sep: string): (parts: seq<string>)
    requires |sep| > 0
    ensures |parts| >= 1
    decreases |s|
  {
    match IndexOf(s, sep)
    case None => [s]
    case Some(i) => [s[..i]] + Split(s[i + |sep|..], sep)
  }

  /** `parts.join(sep)`. */
  function Join(parts: seq<string>, sep: string): string
    decreases |parts|
  {
    if |parts| == 0 then ""
    else if |parts| == 1 then parts[0]
    else parts[0] + sep + Join(parts[1..], sep)
  }

  /** Splitting then joining with the same separator gives back the input. */
  lemma {:induction false} JoinSplit(s: string, sep: string)
    requires |sep| > 0
    ensures Join(Split(s, sep), sep) == s
    decreases |s|
  {
    match IndexOf(s, sep)
    case None =>
      assert Split(s, sep) == [s];
    case Some(i) =>
      var rest := s[i + |sep|..];
      JoinSplit(rest, sep);
      JoinCons(s[..i], Split(rest, sep), sep);
      SplitAround(s, sep, i);
  }

  /** Joining a piece in front of at least one other piece. */
  lemma JoinCons(piece: string, parts: seq<string>, sep: string)
    requires |parts| >= 1
    ensures Join([piece] + parts, sep) == piece + sep + Join(parts, sep)
  {
    assert ([piece] + parts)[1..] == parts;
  }

  /** A string falls apart around an occurrence of `sep`. */
  lemma SplitAround(s: string, sep: string, i: nat)
    requires i + |sep| <= |s| && sep <= s[i..]
    ensures s == s[..i] + sep + s[i + |sep|..]
  {
    assert s[i..i + |sep|] == sep;
    assert s == s[..i] + s[i..i + |sep|] + s[i + |sep|..];
  }

  /** No piece produced by `split` contains the separator. */
  lemma {:induction false} SplitPiecesAvoidSeparator(s: string, sep: string)
    requires |sep| > 0
    ensures forall k :: 0 <= k < |Split(s, sep)| ==> !Includes(Split(s, sep)[k], sep)
    decreases |s|
  {
    match IndexOf(s, sep)
    case None =>
      forall j | 0 <= j <= |s|
        ensures !(sep <= s[j..])
      {
        assert !StartsAt(s, sep, j);
      }
      IncludesIffOccurs(s, sep);
      assert Split(s, sep) == [s];
    case Some(i) =>
      var rest := s[i + |sep|..];
      var later := Split(rest, sep);
      SplitPiecesAvoidSeparator(rest, sep);
      HeadPieceAvoidsSeparator(s, sep, i);
      SplitAtFirst(s, sep, i);
      var parts := [s[..i]] + later;
      forall k | 0 <= k < |parts|
        ensures !Includes(parts[k], sep)
      {
        if k > 0 {
          assert parts[k] == later[k - 1];
        }
      }
  }

  /** One step of `split`: the text before the first occurrence, then the
      pieces of what follows it. */
  lemma SplitAtFirst(s: string, sep: string, i: nat)
    requires |sep| > 0 && IndexOf(s, sep).Some? && IndexOf(s, sep).value == i
    ensures Split(s, sep) == [s[..i]] + Split(s[i + |sep|..], sep)
  {
  }

  /** The text before the first occurrence of `sep` does not contain it. */
  lemma HeadPieceAvoidsSeparator(s: string, sep: string, i: nat)
    requires |sep| > 0 && IndexOf(s, sep) == Some(i)
    ensures !Includes(s[..i], sep)
  {
    IncludesIffOccurs(s[..i], sep);
    forall j | 0 <= j <= i
      ensures !(sep <= s[..i][j..])
    {
      if j + |sep| <= i {
        assert !StartsAt(s, sep, j);
        assert s[..i][j..][..|sep|] == s[j..][..|sep|];
      }
    }
  }

  /** Joining a prefix of the pieces yields a prefix of the joined whole. */
  lemma {:induction false} JoinPrefix(parts: seq<string>, sep: string, k: nat)
    requires k <= |parts|
    ensures Join(parts[..k], sep) <= Join(parts, sep)
    decreases |parts|
  {
    if k == 0 {
    } else if k == 1 {
      assert parts[..1] == [parts[0]];
    } else {
      JoinPrefix(parts[1..], sep, k - 1);
      assert parts[..k][1..] == parts[1..][..k - 1];
    }
  }

  /** Every piece appears inside the joined string. */
  lemma {:induction false} JoinIncludesPiece(parts: seq<string>, sep: string, k: nat)
    requires k < |parts|
    ensures Includes(Join(parts, sep), parts[k])
    decreases |parts|
  {
    if |parts| == 1 {
      IncludesPrefixPart(parts[0], "");
      assert parts[0] + "" == parts[0];
    } else {
      var tail := Join(parts[1..], sep);
      assert Join(parts, sep) == (parts[0] + sep) + tail;
      if k == 0 {
        IncludesPrefixPart(parts[0], sep + tail);
        assert parts[0] + (sep + tail) == (parts[0] + sep) + tail;
      } else {
        JoinIncludesPiece(parts[1..], sep, k - 1);
        IncludesSuffixPart(parts[0] + sep, tail, parts[k]);
      }
    }
  }

  /** The front part of a concatenation is included in it. */
  lemma IncludesPrefixPart(a: string, b: string)
    ensures Includes(a + b, a)
  {
    assert (a + b)[0..][..|a|] == a;
    IncludesIffOccurs(a + b, a);
  }

  /** What the back part of a concatenation includes, the whole includes. */
  lemma IncludesSuffixPart(a: string, b: string, x: string)
    requires Includes(b, x)
    ensures Includes(a + b, x)
  {
    IncludesIffOccurs(b, x);
    var j :| StartsAt(b, x, j);
    assert (a + b)[|a| + j..] == b[j..];
    assert StartsAt(a + b, x, |a| + j);
    IncludesIffOccurs(a + b, x);
  }

  /** `sep` does not start anywhere inside `piece`, even running on into a
      following `sep`: the first occurrence of `sep` in `piece + sep` is the
      appended one. */
  predicate SeparatorOnlyAfter(piece: string, sep: string) {
    forall j :: 0 <= j < |piece| ==> !(sep <= (piece + sep)[j..])
  }

  /** A piece clean in that sense does not contain `sep` at all. */
  lemma NoOccurrenceInPiece(p: string, sep: string)
    requires |sep| > 0 && SeparatorOnlyAfter(p, sep)
    ensures forall j :: 0 <= j <= |p| ==> !(sep <= p[j..])
  {
    forall j | 0 <= j <= |p|
      ensures !(sep <= p[j..])
    {
      if j < |p| && |sep| <= |p| - j {
        assert (p + sep)[j..][..|sep|] == p[j..][..|sep|];
      }
    }
  }

  /** In `p + sep + rest`, the first occurrence of `sep` is the one after
      `p` when `p` is clean. */
  lemma FirstOccurrenceAfterPiece(p: string, sep: string, rest: string)
    requires |sep| > 0 && SeparatorOnlyAfter(p, sep)
    ensures IndexOf(p + sep + rest, sep) == Some(|p|)
  {
    var s := p + sep + rest;
    assert s[|p|..][..|sep|] == sep;
    assert StartsAt(s, sep, |p|);
    forall j | 0 <= j < |p|
      ensures !StartsAt(s, sep, j)
    {
      assert s[j..][..|sep|] == (p + sep)[j..][..|sep|];
    }
  }

  /** With a single-character separator, a piece that does not contain it is
      clean. */
  lemma SingleCharSeparatorClean(p: string, sep: string)
    requires |sep| == 1 && !Includes(p, sep)
    ensures SeparatorOnlyAfter(p, sep)
  {
    IncludesIffOccurs(p, sep);
    forall j | 0 <= j < |p|
      ensures !(sep <= (p + sep)[j..])
    {
      assert (p + sep)[j] == p[j];
      assert !StartsAt(p, sep, j);
    }
  }

  /** Splitting a clean piece yields just that piece. */
  lemma SplitCleanPiece(p: string, sep: string)
    requires |sep| > 0 && SeparatorOnlyAfter(p, sep)
    ensures Split(p, sep) == [p]
  {
    NoOccurrenceInPiece(p, sep);
  }

  /** Splitting `p + sep + tail` cuts after the clean piece `p` first. */
  lemma SplitAfterPiece(p: string, sep: string, tail: string)
    requires |sep| > 0 && SeparatorOnlyAfter(p, sep)
    ensures Split(p + sep + tail, sep) == [p] + Split(tail, sep)
  {
    var s := p + sep + tail;
    FirstOccurrenceAfterPiece(p, sep, tail);
    assert s[..|p|] == p;
    assert s[|p| + |sep|..] == tail;
  }

  /** Joining clean pieces and splitting again gives back the pieces: the
      inverse of `JoinSplit`. */
  lemma {:induction false} SplitJoin(parts: seq<string>, sep: string)
    requires |sep| > 0 && |parts| >= 1
    requires forall k :: 0 <= k < |parts| ==> SeparatorOnlyAfter(parts[k], sep)
    ensures Split(Join(parts, sep), sep) == parts
    decreases |parts|
  {
    if |parts| == 1 {
      SplitCleanPiece(parts[0], sep);
      assert parts == [parts[0]];
    } else {
      SplitJoin(parts[1..], sep);
      SplitAfterPiece(parts[0], sep, Join(parts[1..], sep));
      assert parts == [parts[0]] + parts[1..];
    }
  }

  /** `t` sits in `s` starting at index `i`. */
  predicate OccursAt(s: string, t: string, i: int) {
    0 <= i && i + |t| <= |s| && s[i..i + |t|] == t
  }

  /** A block sitting at some index is included. */
  lemma OccursAtIncludes(s: string, t: string, i: int)
    requires OccursAt(s, t, i)
    ensures Includes(s, t)
  {
    assert s[i..][..|t|] == s[i..i + |t|];
    assert StartsAt(s, t, i);
    IncludesIffOccurs(s, t);
  }
}
