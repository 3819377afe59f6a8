/** The Matrix inbound filter: an event is a duplicate when an event with the same identity
    came before. Each call holds the cache's mutex, so a run is a sequence of calls. */
module Dedupe {

  import opened Text

  /** The event fields; the last two are carried but are not part of its identity. */
  datatype InboundEvent = InboundEvent(
    tenantId: string,
    connectorId: string,
    homeserverId: string,
    conversationId: string,
    matrixEventId: string,
    syncBatchId: string,
    transactionId: string)

  const NUL: char := '\U{0000}'

  /** The fields that identify an event. */
  function Fields(e: InboundEvent): seq<string> {
    [e.tenantId, e.connectorId, e.homeserverId, e.conversationId, e.matrixEventId]
  }

  predicate AllTrimmed(fields: seq<string>) {
    forall i :: 0 <= i < |fields| ==> Trimmed(Rust, fields[i])
  }

  function Identity(e: InboundEvent): seq<string> {
    TrimAll(Rust, Fields(e))
  }

  function DedupeKey(e: InboundEvent): string {
    Join(Identity(e), [NUL])
  }

  predicate NulFree(e: InboundEvent) {
    forall i :: 0 <= i < |Fields(e)| ==> NUL !in Fields(e)[i]
  }

  // ------------------------------------------------------------- keys

  function Count(s: string, c: char): nat {
    if s == "" then 0 else (if s[0] == c then 1 else 0) + Count(s[1..], c)
  }

  lemma {:induction false} CountAppend(a: string, b: string, c: char)
    ensures Count(a + b, c) == Count(a, c) + Count(b, c)
  {
    if a == "" {
      assert a + b == b;
    } else {
      CountAppend(a[1..], b, c);
      assert (a + b)[1..] == a[1..] + b;
    }
  }

  lemma {:induction false} CountZero(s: string, c: char)
    ensures Count(s, c) == 0 <==> c !in s
  {
    if s != "" {
      CountZero(s[1..], c);
      assert s == [s[0]] + s[1..];
    }
  }

  function CountAll(parts: seq<string>, c: char): nat {
    if parts == [] then 0 else Count(parts[0], c) + CountAll(parts[1..], c)
  }

  lemma {:induction false} CountJoin(parts: seq<string>, c: char)
    requires parts != []
    ensures Count(Join(parts, [c]), c) == CountAll(parts, c) + |parts| - 1
  {
    if |parts| > 1 {
      var tail := Join(parts[1..], [c]);
      CountJoin(parts[1..], c);
      CountAppend(parts[0] + [c], tail, c);
      CountAppend(parts[0], [c], c);
      assert Count([c], c) == 1;
    }
  }

  lemma {:induction false} CountAllZero(parts: seq<string>, c: char)
    ensures CountAll(parts, c) == 0 <==> forall i :: 0 <= i < |parts| ==> c !in parts[i]
  {
    if parts != [] {
      CountZero(parts[0], c);
      CountAllZero(parts[1..], c);
      assert parts == [parts[0]] + parts[1..];
    }
  }

  lemma IdentityNulFree(e: InboundEvent)
    requires NulFree(e)
    ensures forall i :: 0 <= i < |Identity(e)| ==> NUL !in Identity(e)[i]
  {
    forall i | 0 <= i < |Identity(e)| ensures NUL !in Identity(e)[i] {
      assert Identity(e)[i] == Trim(Rust, Fields(e)[i]);
    }
  }

  /** The five fields that count agree, blanks around them aside. */
  predicate SameFive(e: InboundEvent, f: InboundEvent) {
    && Trim(Rust, e.tenantId) == Trim(Rust, f.tenantId)
    && Trim(Rust, e.connectorId) == Trim(Rust, f.connectorId)
    && Trim(Rust, e.homeserverId) == Trim(Rust, f.homeserverId)
    && Trim(Rust, e.conversationId) == Trim(Rust, f.conversationId)
    && Trim(Rust, e.matrixEventId) == Trim(Rust, f.matrixEventId)
  }

  lemma IdentityIsFive(e: InboundEvent, f: InboundEvent)
    ensures Identity(e) == Identity(f) <==> SameFive(e, f)
  {
    if SameFive(e, f) {
      forall i | 0 <= i < 5 ensures Identity(e)[i] == Identity(f)[i] {
        assert i == 0 || i == 1 || i == 2 || i == 3 || i == 4;
      }
    }
    if Identity(e) == Identity(f) {
      assert Identity(e)[0] == Identity(f)[0] && Identity(e)[1] == Identity(f)[1] && Identity(e)[2] == Identity(f)[2];
      assert Identity(e)[3] == Identity(f)[3] && Identity(e)[4] == Identity(f)[4];
    }
  }

  /** When one event's fields are free of NUL, another event has the same key exactly when
      all five trimmed fields agree, whatever characters the other's fields hold. */
  lemma KeysIdentify(e: InboundEvent, f: InboundEvent)
    requires NulFree(e)
    ensures DedupeKey(e) == DedupeKey(f) <==> SameFive(e, f)
  {
    SameKeyIsSameIdentity(e, f);
    IdentityIsFive(e, f);
  }

  /** The sync batch and the transaction never count. */
  lemma BatchesDoNotCount(e: InboundEvent, syncBatchId: string, transactionId: string)
    ensures DedupeKey(e.(syncBatchId := syncBatchId, transactionId := transactionId)) == DedupeKey(e)
  {
    assert Fields(e.(syncBatchId := syncBatchId, transactionId := transactionId)) == Fields(e);
  }

  lemma SameKeyIsSameIdentity(e: InboundEvent, f: InboundEvent)
    requires NulFree(e)
    ensures DedupeKey(e) == DedupeKey(f) <==> Identity(e) == Identity(f)
  {
    if DedupeKey(e) == DedupeKey(f) {
      IdentityNulFree(e);
      CountJoin(Identity(e), NUL);
      CountJoin(Identity(f), NUL);
      CountAllZero(Identity(e), NUL);
      CountAllZero(Identity(f), NUL);
      SplitOfJoinChar(Identity(e), NUL);
      SplitOfJoinChar(Identity(f), NUL);
    }
  }

  lemma TrimmedAreKept(fields: seq<string>)
    requires AllTrimmed(fields)
    ensures TrimAll(Rust, fields) == fields
  {
    forall i | 0 <= i < |fields| ensures TrimAll(Rust, fields)[i] == fields[i] {
      assert Trimmed(Rust, fields[i]);
    }
  }

  // ------------------------------------------------------------- colliding keys

  /** The event with the given five fields. */
  function EventOf(fields: seq<string>): (e: InboundEvent)
    requires |fields| == 5
    ensures Fields(e) == fields
  {
    InboundEvent(fields[0], fields[1], fields[2], fields[3], fields[4], "", "")
  }

  lemma {:induction false} JoinTrimmed(parts: seq<string>)
    requires parts != [] && AllTrimmed(parts)
    ensures Trimmed(Rust, Join(parts, [NUL]))
  {
    assert Trimmed(Rust, parts[0]);
    if |parts| > 1 {
      var rest := Join(parts[1..], [NUL]);
      JoinTrimmed(parts[1..]);
      TrimmedAround(parts[0], rest);
    }
  }

  lemma TrimmedAround(x: string, y: string)
    requires Trimmed(Rust, x) && Trimmed(Rust, y)
    ensures Trimmed(Rust, x + [NUL] + y)
  {
  }

  /** A key has one more piece between its NULs than it has NULs. */
  lemma PiecesCounted(key: string)
    ensures |Split(key, [NUL])| == Count(key, NUL) + 1
  {
    var pieces := Split(key, [NUL]);
    SplitCharFree(key, NUL);
    JoinOfSplit(key, [NUL]);
    CountJoin(pieces, NUL);
    CountAllZero(pieces, NUL);
  }

  lemma TrimmedEvent(fields: seq<string>)
    requires |fields| == 5 && AllTrimmed(fields)
    ensures Identity(EventOf(fields)) == fields && DedupeKey(EventOf(fields)) == Join(fields, [NUL])
  {
    TrimmedAreKept(fields);
  }

  predicate Pieces(pieces: seq<string>) {
    |pieces| > 5 && AllTrimmed(pieces) && forall i :: 0 <= i < |pieces| ==> NUL !in pieces[i]
  }

  lemma LastTakesRest(pieces: seq<string>) returns (fields: seq<string>)
    requires Pieces(pieces)
    ensures |fields| == 5 && AllTrimmed(fields) && fields[0] == pieces[0]
    ensures Join(fields, [NUL]) == Join(pieces, [NUL])
  {
    var last := Join(pieces[4..], [NUL]);
    fields := pieces[..4] + [last];
    JoinTrimmed(pieces[4..]);
    JoinConcat(pieces[..4], pieces[4..], [NUL]);
    JoinConcat(pieces[..4], [last], [NUL]);
    assert pieces[..4] + pieces[4..] == pieces;
  }

  lemma FirstTakesRest(pieces: seq<string>) returns (fields: seq<string>)
    requires Pieces(pieces)
    ensures |fields| == 5 && AllTrimmed(fields) && NUL in fields[0]
    ensures Join(fields, [NUL]) == Join(pieces, [NUL])
  {
    var k := |pieces| - 4;
    var first := Join(pieces[..k], [NUL]);
    fields := [first] + pieces[k..];
    JoinTrimmed(pieces[..k]);
    JoinConcat(pieces[..k], pieces[k..], [NUL]);
    JoinConcat([first], pieces[k..], [NUL]);
    assert pieces[..k] + pieces[k..] == pieces;
    CountJoin(pieces[..k], NUL);
    CountZero(first, NUL);
  }

  /** Six or more trimmed pieces make five fields in two ways with the same key: all the rest in
      the last field, or all the rest in the first. */
  lemma TwoReadings(pieces: seq<string>) returns (f: seq<string>, g: seq<string>)
    requires Pieces(pieces)
    ensures |f| == |g| == 5 && AllTrimmed(f) && AllTrimmed(g) && f != g
    ensures Join(f, [NUL]) == Join(pieces, [NUL]) == Join(g, [NUL])
  {
    f := LastTakesRest(pieces);
    g := FirstTakesRest(pieces);
    assert f[0] != g[0];
  }

  lemma OtherReading(e: InboundEvent, identity: seq<string>, key: string, fields: seq<string>)
    requires identity == Identity(e) && key == DedupeKey(e)
    requires |fields| == 5 && AllTrimmed(fields) && Join(fields, [NUL]) == key && fields != identity
    ensures Collides(e)
  {
    TrimmedEvent(fields);
    assert DedupeKey(EventOf(fields)) == DedupeKey(e) && Identity(EventOf(fields)) != Identity(e);
  }

  lemma {:induction false} NulCounts(e: InboundEvent)
    requires !NulFree(e)
    ensures Count(DedupeKey(e), NUL) > 4
  {
    var i :| 0 <= i < |Fields(e)| && NUL in Fields(e)[i];
    TrimKeeps(Rust, Fields(e)[i], NUL);
    assert Identity(e)[i] == Trim(Rust, Fields(e)[i]);
    CountAllZero(Identity(e), NUL);
    CountJoin(Identity(e), NUL);
  }

  ghost predicate Collides(e: InboundEvent) {
    exists f :: DedupeKey(f) == DedupeKey(e) && Identity(f) != Identity(e)
  }

  /** An event whose key has only trimmed pieces shares it with another identity exactly when one
      of its fields holds a NUL. */
  lemma CollidesIffNul(e: InboundEvent)
    requires AllTrimmed(Split(DedupeKey(e), [NUL]))
    ensures Collides(e) <==> !NulFree(e)
  {
    if NulFree(e) {
      forall f ensures !(DedupeKey(f) == DedupeKey(e) && Identity(f) != Identity(e)) {
        SameKeyIsSameIdentity(e, f);
      }
    } else {
      var key := DedupeKey(e);
      NulCounts(e);
      PiecesCounted(key);
      SplitCharFree(key, NUL);
      JoinOfSplit(key, [NUL]);
      var f, g := TwoReadings(Split(key, [NUL]));
      var identity := Identity(e);
      OtherReading(e, identity, key, if f != identity then f else g);
    }
  }

  // ------------------------------------------------------------- runs of the filter

  function Keys(events: seq<InboundEvent>): seq<string> {
    seq(|events|, i requires 0 <= i < |events| => DedupeKey(events[i]))
  }

  /** The key at `i` occurs earlier. */
  predicate Repeats(keys: seq<string>, i: nat)
    requires i < |keys|
  {
    keys[i] in keys[..i]
  }

  function Accepted(answers: seq<bool>): nat {
    if answers == [] then 0
    else Accepted(answers[..|answers| - 1]) + if answers[|answers| - 1] then 0 else 1
  }

  /** For each call, whether it was answered "duplicate", and how many were not. */
  ghost predicate Answered(keys: seq<string>, answers: seq<bool>, seen: set<string>) {
    && |answers| == |keys|
    && (forall key :: key in seen <==> key in keys)
    && (forall i :: 0 <= i < |keys| ==> (answers[i] <==> Repeats(keys, i)))
    && Accepted(answers) == |seen|
  }

  lemma AnsweredNext(keys: seq<string>, answers: seq<bool>, seen: set<string>, key: string)
    requires Answered(keys, answers, seen)
    ensures Answered(keys + [key], answers + [key in seen], seen + {key})
  {
    var keys', answers' := keys + [key], answers + [key in seen];
    assert answers'[..|answers|] == answers;
    forall i | 0 <= i < |keys'| ensures answers'[i] <==> Repeats(keys', i) {
      assert keys'[..i] == keys[..i];
      assert i < |keys| ==> (answers[i] <==> Repeats(keys, i));
    }
    if key in seen {
      assert seen + {key} == seen;
    }
  }

  /** Over events without NUL, a key repeats, and the answer is "duplicate", exactly when an
      earlier event has the same five trimmed fields. */
  lemma DuplicateIffSameIdentity(events: seq<InboundEvent>, i: nat)
    requires i < |events|
    requires forall j :: 0 <= j < i ==> NulFree(events[j])
    ensures Repeats(Keys(events), i) <==> exists j :: 0 <= j < i && SameFive(events[j], events[i])
  {
    var keys := Keys(events);
    if Repeats(keys, i) {
      var j :| 0 <= j < i && keys[..i][j] == keys[i];
      KeysIdentify(events[j], events[i]);
    }
    if j :| 0 <= j < i && SameFive(events[j], events[i]) {
      KeysIdentify(events[j], events[i]);
      assert keys[..i][j] == keys[i];
    }
  }

  /** The cache, with the keys it was asked about and its answers. */
  class DedupeCache {
    var seen: set<string>
    ghost var keys: seq<string>
    ghost var answers: seq<bool>

    ghost predicate Valid()
      reads this
    {
      Answered(keys, answers, seen)
    }

    constructor ()
      ensures Valid() && keys == [] && answers == []
    {
      seen := {};
      keys, answers := [], [];
    }

    /** False exactly for the first event of a key; one event per key is let through. */
    method MarkDuplicate(event: InboundEvent) returns (duplicate: bool)
      requires Valid()
      modifies this
      ensures Valid()
      ensures keys == old(keys) + [DedupeKey(event)] && answers == old(answers) + [duplicate]
      ensures duplicate <==> DedupeKey(event) in old(keys)
    {
      var key := DedupeKey(event);
      AnsweredNext(keys, answers, seen, key);
      if key in seen {
        assert seen + {key} == seen;
        duplicate := true;
      } else {
        seen := seen + {key};
        duplicate := false;
      }
      keys, answers := keys + [key], answers + [duplicate];
    }
  }
}
