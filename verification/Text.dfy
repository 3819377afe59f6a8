/** String operations the sources take from their standard libraries: whitespace
    trimming (JavaScript and Rust disagree on two code points), leftmost splitting
    on a separator, and joining. */
module Text {

  /** Which library decides what whitespace is. */
  datatype Library = JavaScript | Rust

  /** The code points `String.prototype.trim` and `str::trim` remove. */
  predicate IsSpace(lib: Library, c: char) {
    || '\t' <= c <= '\r'
    || c == ' '
    || c == '\U{00A0}'
    || c == '\U{1680}'
    || '\U{2000}' <= c <= '\U{200A}'
    || c == '\U{2028}'
    || c == '\U{2029}'
    || c == '\U{202F}'
    || c == '\U{205F}'
    || c == '\U{3000}'
    || (lib == JavaScript && c == '\U{FEFF}')
    || (lib == Rust && c == '\U{0085}')
  }

  predicate Blank(lib: Library, s: string) {
    forall i :: 0 <= i < |s| ==> IsSpace(lib, s[i])
  }

  predicate Trimmed(lib: Library, s: string) {
    s == "" || (!IsSpace(lib, s[0]) && !IsSpace(lib, s[|s| - 1]))
  }

  function TrimStart(lib: Library, s: string): string {
    if s == "" || !IsSpace(lib, s[0]) then s else TrimStart(lib, s[1..])
  }

  function TrimEnd(lib: Library, s: string): string {
    if s == "" || !IsSpace(lib, s[|s| - 1]) then s else TrimEnd(lib, s[..|s| - 1])
  }

  /** What is left of a text after a blank start, and after a blank end. */
  lemma {:induction false} TrimStartSpec(lib: Library, s: string)
    ensures var r := TrimStart(lib, s);
            && |r| <= |s| && r == s[|s| - |r|..]
            && (r == "" || !IsSpace(lib, r[0]))
            && Blank(lib, s[..|s| - |r|])
            && (r == "" <==> Blank(lib, s))
  {
    if s != "" && IsSpace(lib, s[0]) {
      TrimStartSpec(lib, s[1..]);
      var r := TrimStart(lib, s[1..]);
      assert s[..|s| - |r|] == [s[0]] + s[1..][..|s| - 1 - |r|];
    }
  }

  lemma {:induction false} TrimEndSpec(lib: Library, s: string)
    ensures var r := TrimEnd(lib, s);
            && r <= s
            && (r == "" || !IsSpace(lib, r[|r| - 1]))
            && Blank(lib, s[|r|..])
            && (r == "" <==> Blank(lib, s))
  {
    var n := |s| - 1;
    if s != "" && IsSpace(lib, s[n]) {
      TrimEndSpec(lib, s[..n]);
      var r := TrimEnd(lib, s[..n]);
      assert s[|r|..] == s[..n][|r|..] + [s[n]];
    }
  }

  function Trim(lib: Library, s: string): (r: string)
    ensures Trimmed(lib, r)
    ensures forall c :: c in r ==> c in s
    ensures Trimmed(lib, s) ==> r == s
  {
    TrimStartSpec(lib, s);
    TrimEndSpec(lib, TrimStart(lib, s));
    TrimEnd(lib, TrimStart(lib, s))
  }

  /** Trimming away everything is the same as being blank. */
  lemma TrimBlank(lib: Library, s: string)
    ensures Trim(lib, s) == "" <==> Blank(lib, s)
  {
    var t := TrimStart(lib, s);
    TrimStartSpec(lib, s);
    TrimEndSpec(lib, t);
    assert s == s[..|s| - |t|] + t;
  }

  lemma {:induction false} TrimStartKeeps(lib: Library, s: string, c: char)
    requires c in s && !IsSpace(lib, c)
    ensures c in TrimStart(lib, s)
  {
    if IsSpace(lib, s[0]) {
      assert s == [s[0]] + s[1..];
      TrimStartKeeps(lib, s[1..], c);
    }
  }

  lemma {:induction false} TrimEndKeeps(lib: Library, s: string, c: char)
    requires c in s && !IsSpace(lib, c)
    ensures c in TrimEnd(lib, s)
  {
    var n := |s| - 1;
    if IsSpace(lib, s[n]) {
      assert s == s[..n] + [s[n]];
      TrimEndKeeps(lib, s[..n], c);
    }
  }

  /** Trimming removes nothing but whitespace. */
  lemma TrimKeeps(lib: Library, s: string, c: char)
    requires c in s && !IsSpace(lib, c)
    ensures c in Trim(lib, s)
  {
    TrimStartKeeps(lib, s, c);
    TrimEndKeeps(lib, TrimStart(lib, s), c);
  }

  lemma {:induction false} TrimStartOfMore(lib: Library, s: string, c: char)
    requires !Blank(lib, s)
    ensures TrimStart(lib, s + [c]) == TrimStart(lib, s) + [c]
  {
    if IsSpace(lib, s[0]) {
      assert (s + [c])[1..] == s[1..] + [c];
      TrimStartOfMore(lib, s[1..], c);
    }
  }

  /** A blank character at the end makes no difference. */
  lemma TrimBlankEnd(lib: Library, s: string, c: char)
    requires IsSpace(lib, c)
    ensures Trim(lib, s + [c]) == Trim(lib, s)
  {
    if Blank(lib, s) {
      TrimBlank(lib, s);
      TrimBlank(lib, s + [c]);
    } else {
      TrimStartOfMore(lib, s, c);
      var t := TrimStart(lib, s);
      assert (t + [c])[..|t|] == t;
    }
  }

  /** Trimming the end first makes no difference. */
  lemma {:induction false} TrimOfTrimEnd(lib: Library, s: string, n: nat)
    requires n <= |TrimEnd(lib, s)| <= |s|
    ensures Trim(lib, TrimEnd(lib, s)[n..]) == Trim(lib, s[n..])
    decreases |s|
  {
    var k := |s| - 1;
    if s != "" && IsSpace(lib, s[k]) {
      TrimEndSpec(lib, s[..k]);
      TrimOfTrimEnd(lib, s[..k], n);
      assert s[n..] == s[..k][n..] + [s[k]];
      TrimBlankEnd(lib, s[..k][n..], s[k]);
    }
  }

  function TrimAll(lib: Library, values: seq<string>): (r: seq<string>)
    ensures |r| == |values|
    ensures forall i :: 0 <= i < |values| ==> r[i] == Trim(lib, values[i])
  {
    seq(|values|, i requires 0 <= i < |values| => Trim(lib, values[i]))
  }

  // ------------------------------------------------------------------ join

  function Join(parts: seq<string>, sep: string): string {
    if parts == [] then ""
    else if |parts| == 1 then parts[0]
    else parts[0] + sep + Join(parts[1..], sep)
  }

  lemma {:induction false} JoinConcat(a: seq<string>, b: seq<string>, sep: string)
    requires a != [] && b != []
    ensures Join(a + b, sep) == Join(a, sep) + sep + Join(b, sep)
  {
    assert (a + b)[1..] == a[1..] + b;
    if |a| > 1 {
      JoinConcat(a[1..], b, sep);
    }
  }

  // ----------------------------------------------------------------- split

  predicate OccursAt(s: string, sep: string, i: int) {
    0 <= i <= |s| - |sep| && s[i..i + |sep|] == sep
  }

  predicate Occurs(s: string, sep: string) {
    exists i :: 0 <= i <= |s| && OccursAt(s, sep, i)
  }

  /** The leftmost occurrence at or after `from`, or -1. */
  function IndexFrom(s: string, sep: string, from: nat): (r: int)
    requires from <= |s|
    ensures r == -1 || (from <= r && OccursAt(s, sep, r))
    ensures forall i :: from <= i && (r == -1 || i < r) ==> !OccursAt(s, sep, i)
    decreases |s| - from
  {
    if OccursAt(s, sep, from) then from
    else if from == |s| then -1
    else IndexFrom(s, sep, from + 1)
  }

  /** Splits at every leftmost, non-overlapping occurrence; the text "" gives one empty part. */
  function Split(s: string, sep: string): (parts: seq<string>)
    requires sep != ""
    ensures parts != []
    decreases |s|
  {
    var i := IndexFrom(s, sep, 0);
    if i == -1 then [s] else [s[..i]] + Split(s[i + |sep|..], sep)
  }

  /** `p` can stand before a separator: the first separator of `p + sep` is the added one. */
  predicate Closed(p: string, sep: string) {
    forall i :: 0 <= i < |p| ==> !OccursAt(p + sep, sep, i)
  }

  /** What a split can look like: closed parts, then a part without any separator. */
  predicate SplitShape(parts: seq<string>, sep: string) {
    && parts != []
    && (forall i :: 0 <= i < |parts| - 1 ==> Closed(parts[i], sep))
    && !Occurs(parts[|parts| - 1], sep)
  }

  lemma LeftmostIs(s: string, sep: string, i: nat)
    requires sep != "" && OccursAt(s, sep, i)
    requires forall j :: 0 <= j < i ==> !OccursAt(s, sep, j)
    ensures IndexFrom(s, sep, 0) == i
  {
  }

  /** Whether a separator occurs at a place depends only on the text it covers. */
  lemma OccursLocally(a: string, b: string, sep: string, i: int)
    requires 0 <= i <= |a| - |sep|
    ensures OccursAt(a + b, sep, i) <==> OccursAt(a, sep, i)
  {
    assert (a + b)[i..i + |sep|] == a[i..i + |sep|];
  }

  /** The first part of `p + sep + rest` is `p`, whatever follows. */
  lemma SplitClosed(p: string, sep: string, rest: string)
    requires sep != "" && Closed(p, sep)
    ensures Split(p + sep + rest, sep) == [p] + Split(rest, sep)
  {
    var s := p + sep + rest;
    assert s[|p|..|p| + |sep|] == sep;
    assert s[..|p|] == p && s[|p| + |sep|..] == rest;
    forall j | 0 <= j < |p| ensures !OccursAt(s, sep, j) {
      OccursLocally(p + sep, rest, sep, j);
    }
    LeftmostIs(s, sep, |p|);
  }

  /** A text with a separator: what precedes the first one is closed. */
  lemma FirstPart(s: string, sep: string) returns (p: string, rest: string)
    requires sep != "" && IndexFrom(s, sep, 0) != -1
    ensures s == p + sep + rest && Closed(p, sep)
    ensures Split(s, sep) == [p] + Split(rest, sep)
  {
    var i := IndexFrom(s, sep, 0);
    p, rest := s[..i], s[i + |sep|..];
    assert s == p + sep + rest;
    forall j | 0 <= j < |p| ensures !OccursAt(p + sep, sep, j) {
      OccursLocally(p + sep, rest, sep, j);
    }
  }

  /** Split undoes Join on every list of the right shape. */
  lemma {:induction false} SplitOfJoin(parts: seq<string>, sep: string)
    requires sep != "" && SplitShape(parts, sep)
    ensures Split(Join(parts, sep), sep) == parts
  {
    if |parts| == 1 {
    } else {
      var rest := parts[1..];
      assert parts == [parts[0]] + rest;
      SplitOfJoin(rest, sep);
      SplitClosed(parts[0], sep, Join(rest, sep));
    }
  }

  /** Every split has the right shape, and Join undoes Split on every text. */
  lemma {:induction false} JoinOfSplit(s: string, sep: string)
    requires sep != ""
    ensures SplitShape(Split(s, sep), sep)
    ensures Join(Split(s, sep), sep) == s
    decreases |s|
  {
    if IndexFrom(s, sep, 0) != -1 {
      var p, rest := FirstPart(s, sep);
      JoinOfSplit(rest, sep);
      assert Split(s, sep)[1..] == Split(rest, sep);
    }
  }

  /** Splitting a text in two steps: everything but the last part is settled, and only
      the last part is split again once more text arrives. */
  lemma {:induction false} SplitAppend(s: string, more: string, sep: string)
    requires sep != ""
    ensures Split(s + more, sep) == Resumed(Split(s, sep), more, sep)
    decreases |s|
  {
    if IndexFrom(s, sep, 0) == -1 {
      assert Split(s, sep) == [s];
      assert Resumed([s], more, sep) == Split(s + more, sep);
    } else {
      var p, rest := FirstPart(s, sep);
      SplitAppend(rest, more, sep);
      SplitClosed(p, sep, rest + more);
      assert s + more == p + sep + (rest + more);
      ResumedCons(p, Split(rest, sep), more, sep);
    }
  }

  /** The parts known so far, with the last one reopened for the text that follows it. */
  function Resumed(parts: seq<string>, more: string, sep: string): seq<string>
    requires parts != [] && sep != ""
  {
    parts[..|parts| - 1] + Split(parts[|parts| - 1] + more, sep)
  }

  lemma ResumedCons(p: string, parts: seq<string>, more: string, sep: string)
    requires parts != [] && sep != ""
    ensures Resumed([p] + parts, more, sep) == [p] + Resumed(parts, more, sep)
  {
    var all := [p] + parts;
    assert all[..|all| - 1] == [p] + parts[..|parts| - 1];
    assert all[|all| - 1] == parts[|parts| - 1];
  }

  lemma OneChar(p: string, c: char)
    ensures Occurs(p, [c]) <==> c in p
    ensures Closed(p, [c]) <==> c !in p
  {
    forall i | 0 <= i < |p| ensures OccursAt(p, [c], i) <==> p[i] == c {
      assert p[i..i + 1] == [p[i]];
    }
    forall i | 0 <= i < |p| ensures OccursAt(p + [c], [c], i) <==> p[i] == c {
      assert (p + [c])[i..i + 1] == [p[i]];
    }
  }

  /** For a one-character separator the shape is: no part contains it. */
  lemma CharShape(parts: seq<string>, c: char)
    ensures SplitShape(parts, [c]) <==> parts != [] && forall i :: 0 <= i < |parts| ==> c !in parts[i]
  {
    forall i | 0 <= i < |parts|
      ensures Occurs(parts[i], [c]) <==> c in parts[i]
      ensures Closed(parts[i], [c]) <==> c !in parts[i]
    {
      OneChar(parts[i], c);
    }
  }

  /** Splitting on one character leaves parts free of it. */
  lemma SplitCharFree(s: string, c: char)
    ensures forall i :: 0 <= i < |Split(s, [c])| ==> c !in Split(s, [c])[i]
  {
    JoinOfSplit(s, [c]);
    CharShape(Split(s, [c]), c);
  }

  /** Joining on one character loses nothing when no part contains it. */
  lemma SplitOfJoinChar(parts: seq<string>, c: char)
    requires parts != [] && forall i :: 0 <= i < |parts| ==> c !in parts[i]
    ensures Split(Join(parts, [c]), [c]) == parts
  {
    CharShape(parts, c);
    SplitOfJoin(parts, [c]);
  }
}
