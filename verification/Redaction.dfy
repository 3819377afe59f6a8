/** Taking Discord ids out of request routes before they are logged. */
module Redaction {

  import opened Text

  /** At least twelve characters, all of them ASCII digits. */
  predicate LooksLikeId(part: string) {
    |part| >= 12 && forall i :: 0 <= i < |part| ==> '0' <= part[i] <= '9'
  }

  const REDACTED := "redacted_id"

  function RedactedPart(part: string): string {
    if LooksLikeId(part) then REDACTED else part
  }

  function RedactedParts(parts: seq<string>): seq<string> {
    seq(|parts|, i requires 0 <= i < |parts| => RedactedPart(parts[i]))
  }

  function RedactRoute(route: string): string {
    var t := Trim(Rust, route);
    if t == "" then "" else Join(RedactedParts(Split(t, "/")), "/")
  }

  // ------------------------------------------------------------- one segment

  lemma RedactedPartShape(part: string)
    requires '/' !in part
    ensures '/' !in RedactedPart(part) && !LooksLikeId(RedactedPart(part))
  {
    assert !LooksLikeId(REDACTED) by {
      assert REDACTED[0] == 'r';
    }
  }

  lemma RedactedPartEnds(part: string)
    requires part != ""
    ensures RedactedPart(part) != ""
    ensures Trimmed(Rust, RedactedPart(part)[..1]) || RedactedPart(part)[0] == part[0]
    ensures Trimmed(Rust, [RedactedPart(part)[|RedactedPart(part)| - 1]])
            || RedactedPart(part)[|RedactedPart(part)| - 1] == part[|part| - 1]
  {
    assert REDACTED[0] == 'r' && REDACTED[|REDACTED| - 1] == 'd';
  }

  // ------------------------------------------------------------- the ends of a join

  predicate OpenStart(s: string) {
    s == "" || !IsSpace(Rust, s[0])
  }

  predicate OpenEnd(s: string) {
    s == "" || !IsSpace(Rust, s[|s| - 1])
  }

  lemma JoinStart(parts: seq<string>)
    requires parts != []
    ensures OpenStart(Join(parts, "/")) <==> OpenStart(parts[0])
  {
    if |parts| > 1 {
      assert Join(parts, "/") == parts[0] + ("/" + Join(parts[1..], "/"));
    }
  }

  lemma {:induction false} JoinEnd(parts: seq<string>)
    requires parts != []
    ensures OpenEnd(Join(parts, "/")) <==> OpenEnd(parts[|parts| - 1])
  {
    if |parts| > 1 {
      JoinEnd(parts[1..]);
      assert Join(parts, "/") == (parts[0] + "/") + Join(parts[1..], "/");
    }
  }

  /** Redaction leaves no blank at either end of a trimmed route. */
  lemma RedactedJoinTrimmed(t: string)
    requires Trimmed(Rust, t)
    ensures Trimmed(Rust, Join(RedactedParts(Split(t, "/")), "/"))
  {
    var parts := Split(t, "/");
    var redacted := RedactedParts(parts);
    JoinOfSplit(t, "/");
    JoinStart(parts);
    JoinEnd(parts);
    JoinStart(redacted);
    JoinEnd(redacted);
    if parts[0] != "" { RedactedPartEnds(parts[0]); }
    if parts[|parts| - 1] != "" { RedactedPartEnds(parts[|parts| - 1]); }
  }

  // ------------------------------------------------------------- the whole route

  /** The segments of a redacted route are those of the trimmed route, in place and in number,
      with every id replaced; none of them looks like an id. */
  lemma RedactedSegments(route: string)
    ensures Split(RedactRoute(route), "/") == RedactedParts(Split(Trim(Rust, route), "/"))
    ensures forall i :: 0 <= i < |Split(RedactRoute(route), "/")| ==>
      !LooksLikeId(Split(RedactRoute(route), "/")[i])
    ensures Trimmed(Rust, RedactRoute(route))
  {
    var t := Trim(Rust, route);
    var parts := Split(t, "/");
    var redacted := RedactedParts(parts);
    SplitCharFree(t, '/');
    forall i | 0 <= i < |parts| ensures '/' !in redacted[i] && !LooksLikeId(redacted[i]) {
      RedactedPartShape(parts[i]);
    }
    SplitOfJoinChar(redacted, '/');
    RedactedJoinTrimmed(t);
    EmptyRoute();
  }

  lemma EmptyRoute()
    ensures Split("", "/") == [""] && RedactedParts([""]) == [""]
  {
    assert RedactedParts([""])[0] == "";
  }

  /** Twelve or more characters, none but the digits 0 to 9. */
  predicate LongNumber(s: string) {
    |s| >= 12 && forall c :: c in s ==> c in "0123456789"
  }

  lemma LongNumberIsId(s: string)
    ensures LongNumber(s) <==> LooksLikeId(s)
  {
    if LongNumber(s) {
      forall i | 0 <= i < |s| ensures '0' <= s[i] <= '9' {
        assert s[i] in s;
      }
    }
    if LooksLikeId(s) {
      forall c | c in s ensures c in "0123456789" {
        DigitListed(c);
      }
    }
  }

  lemma DigitListed(c: char)
    requires '0' <= c <= '9'
    ensures c in "0123456789"
  {
    var k := (c - '0') as int;
    assert "0123456789"[k] == c;
  }

  /** Segment by segment: long numbers are replaced, everything else stays. */
  lemma SegmentsAre(route: string, i: nat)
    requires i < |Split(Trim(Rust, route), "/")|
    ensures |Split(RedactRoute(route), "/")| == |Split(Trim(Rust, route), "/")|
    ensures var segment := Split(Trim(Rust, route), "/")[i];
            Split(RedactRoute(route), "/")[i] == if LongNumber(segment) then "redacted_id" else segment
    ensures !LongNumber(Split(RedactRoute(route), "/")[i])
  {
    RedactedSegments(route);
    LongNumberIsId(Split(Trim(Rust, route), "/")[i]);
    LongNumberIsId(Split(RedactRoute(route), "/")[i]);
  }

  /** A route redaction leaves alone is exactly a trimmed one without an id segment. */
  lemma UnchangedIffClean(route: string)
    ensures RedactRoute(route) == route <==>
      && Trimmed(Rust, route)
      && forall i :: 0 <= i < |Split(route, "/")| ==> !LooksLikeId(Split(route, "/")[i])
  {
    RedactedSegments(route);
    if Trimmed(Rust, route) && forall i :: 0 <= i < |Split(route, "/")| ==> !LooksLikeId(Split(route, "/")[i]) {
      var parts := Split(route, "/");
      assert RedactedParts(parts) == parts;
      JoinOfSplit(route, "/");
      JoinOfSplit(RedactRoute(route), "/");
    }
  }

  /** Redacting twice is redacting once. */
  lemma RedactionIdempotent(route: string)
    ensures RedactRoute(RedactRoute(route)) == RedactRoute(route)
  {
    RedactedSegments(route);
    UnchangedIffClean(RedactRoute(route));
  }

  /** Two routes are redacted alike exactly when their trimmed segments agree up to ids and
      the text that stands for them. */
  lemma SameRedaction(a: string, b: string)
    ensures RedactRoute(a) == RedactRoute(b) <==>
      RedactedParts(Split(Trim(Rust, a), "/")) == RedactedParts(Split(Trim(Rust, b), "/"))
  {
    RedactedSegments(a);
    RedactedSegments(b);
    JoinOfSplit(RedactRoute(a), "/");
    JoinOfSplit(RedactRoute(b), "/");
  }
}
