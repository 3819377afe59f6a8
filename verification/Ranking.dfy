/** The order of connector lists: state rank, then display name, then connector id; and the
    stable sort that produces it. */
module Ranking {

  import opened Projections

  /** Lexicographic comparison by code point, which is Rust's order on strings. */
  predicate AtMost(a: string, b: string) {
    if a == "" then true
    else if b == "" then false
    else if a[0] != b[0] then a[0] < b[0]
    else AtMost(a[1..], b[1..])
  }

  lemma {:induction false} AtMostTotal(a: string, b: string)
    ensures AtMost(a, b) || AtMost(b, a)
  {
    if a != "" && b != "" && a[0] == b[0] {
      AtMostTotal(a[1..], b[1..]);
    }
  }

  lemma {:induction false} AtMostAntisymmetric(a: string, b: string)
    requires AtMost(a, b) && AtMost(b, a)
    ensures a == b
  {
    if a != "" && b != "" {
      AtMostAntisymmetric(a[1..], b[1..]);
      assert a == [a[0]] + a[1..] && b == [b[0]] + b[1..];
    }
  }

  lemma {:induction false} AtMostTransitive(a: string, b: string, c: string)
    requires AtMost(a, b) && AtMost(b, c)
    ensures AtMost(a, c)
  {
    if a != "" && b != "" && c != "" && a[0] == b[0] == c[0] {
      AtMostTransitive(a[1..], b[1..], c[1..]);
    }
  }

  /** `a` comes before `b`: it is a proper start of it, or the first character in which they
      differ is smaller. */
  predicate Precedes(a: string, b: string) {
    || (a <= b && a != b)
    || exists k :: 0 <= k < |a| && k < |b| && a[..k] == b[..k] && a[k] < b[k]
  }

  lemma {:induction false} AtMostPrecedes(a: string, b: string)
    ensures AtMost(a, b) <==> a == b || Precedes(a, b)
  {
    if a != "" && b != "" {
      var x, y := a[1..], b[1..];
      assert a == [a[0]] + x && b == [b[0]] + y;
      if a[0] == b[0] {
        AtMostPrecedes(x, y);
        PrecedesCons(a[0], x, y);
      } else if a[0] < b[0] {
        assert a[..0] == b[..0];
      } else {
        forall k | 0 < k < |a| && k < |b| ensures a[..k] != b[..k] {
          assert a[..k][0] == a[0] && b[..k][0] == b[0];
        }
      }
    }
  }

  lemma PrecedesCons(c: char, x: string, y: string)
    ensures Precedes([c] + x, [c] + y) <==> Precedes(x, y)
  {
    var a, b := [c] + x, [c] + y;
    if k :| 0 <= k < |a| && k < |b| && a[..k] == b[..k] && a[k] < b[k] {
      assert x[..k - 1] == a[..k][1..] && y[..k - 1] == b[..k][1..];
    }
    if k :| 0 <= k < |x| && k < |y| && x[..k] == y[..k] && x[k] < y[k] {
      assert a[..k + 1] == [c] + x[..k] && b[..k + 1] == [c] + y[..k];
    }
    if x <= y {
      assert a <= b;
    }
    if a <= b {
      assert x == a[1..] && y == b[1..];
    }
  }

  datatype Key = Key(rank: int, name: string, id: string)

  /** The comparator: rank first, then name, then id. */
  predicate Leq(a: Key, b: Key) {
    if a.rank != b.rank then a.rank < b.rank
    else if a.name != b.name then AtMost(a.name, b.name)
    else AtMost(a.id, b.id)
  }

  lemma LeqTotal(a: Key, b: Key)
    ensures Leq(a, b) || Leq(b, a)
  {
    AtMostTotal(a.name, b.name);
    AtMostTotal(a.id, b.id);
  }

  lemma LeqAntisymmetric(a: Key, b: Key)
    requires Leq(a, b) && Leq(b, a)
    ensures a == b
  {
    if a.name != b.name {
      AtMostAntisymmetric(a.name, b.name);
    } else {
      AtMostAntisymmetric(a.id, b.id);
    }
  }

  lemma LeqTransitive(a: Key, b: Key, c: Key)
    requires Leq(a, b) && Leq(b, c)
    ensures Leq(a, c)
  {
    if a.rank == b.rank == c.rank {
      if a.name == b.name == c.name {
        AtMostTransitive(a.id, b.id, c.id);
      } else if a.name != b.name && b.name != c.name {
        AtMostTransitive(a.name, b.name, c.name);
        if a.name == c.name {
          AtMostAntisymmetric(a.name, b.name);
        }
      }
    }
  }

  /** Attention states first, then disabled, then ready. */
  function StateRank(state: ManagementState): int {
    match state
    case ActionRequired => 0
    case Unavailable => 0
    case Degraded => 0
    case Disabled => 1
    case Ready => 2
  }

  function KeyOf(p: Projection): Key {
    Key(StateRank(p.enablementState), p.displayName, p.connectorId)
  }

  ghost predicate Sorted(s: seq<Projection>) {
    forall i, j :: 0 <= i < j < |s| ==> Leq(KeyOf(s[i]), KeyOf(s[j]))
  }

  /** The elements with one key, in their order. */
  function With(s: seq<Projection>, k: Key): seq<Projection> {
    if s == [] then []
    else (if KeyOf(s[0]) == k then [s[0]] else []) + With(s[1..], k)
  }

  /** A stable ordering: sorted, and elements with equal keys keep their order. */
  ghost predicate StableSorting(input: seq<Projection>, output: seq<Projection>) {
    Sorted(output) && forall k :: With(output, k) == With(input, k)
  }

  /** Puts a new head before everything it may precede; among equals it stays first. */
  function Insert(x: Projection, s: seq<Projection>): seq<Projection> {
    if s == [] || Leq(KeyOf(x), KeyOf(s[0])) then [x] + s else [s[0]] + Insert(x, s[1..])
  }

  function Sort(s: seq<Projection>): seq<Projection> {
    if s == [] then [] else Insert(s[0], Sort(s[1..]))
  }

  lemma {:induction false} InsertSpec(x: Projection, s: seq<Projection>, k: Key)
    requires Sorted(s)
    ensures With(Insert(x, s), k) == With([x] + s, k)
    decreases |s|
  {
    var all := [x] + s;
    assert all[1..] == s;
    if s != [] && !Leq(KeyOf(x), KeyOf(s[0])) {
      var rest := Insert(x, s[1..]);
      InsertSpec(x, s[1..], k);
      assert ([s[0]] + rest)[1..] == rest;
      assert ([x] + s[1..])[1..] == s[1..];
      if KeyOf(x) == KeyOf(s[0]) {
        LeqTotal(KeyOf(x), KeyOf(s[0]));
      }
    }
  }

  lemma {:induction false} InsertSorted(x: Projection, s: seq<Projection>)
    requires Sorted(s)
    ensures Sorted(Insert(x, s))
    ensures forall e :: e in Insert(x, s) <==> e == x || e in s
    decreases |s|
  {
    if s == [] || Leq(KeyOf(x), KeyOf(s[0])) {
      var r := [x] + s;
      forall j | 0 < j < |r| ensures Leq(KeyOf(x), KeyOf(r[j])) {
        if j > 1 {
          LeqTransitive(KeyOf(x), KeyOf(s[0]), KeyOf(s[j - 1]));
        }
      }
    } else {
      var rest := Insert(x, s[1..]);
      InsertSorted(x, s[1..]);
      LeqTotal(KeyOf(x), KeyOf(s[0]));
      forall j | 0 <= j < |rest| ensures Leq(KeyOf(s[0]), KeyOf(rest[j])) {
        assert rest[j] in rest;
        if rest[j] != x {
          var tail := s[1..];
          assert rest[j] in tail;
          var m :| 0 <= m < |tail| && tail[m] == rest[j];
          assert s[m + 1] == rest[j];
        }
      }
    }
  }

  lemma {:induction false} SortIsStable(s: seq<Projection>)
    ensures StableSorting(s, Sort(s))
    ensures forall e :: e in Sort(s) <==> e in s
  {
    if s != [] {
      SortIsStable(s[1..]);
      InsertSorted(s[0], Sort(s[1..]));
      assert s == [s[0]] + s[1..];
      forall k ensures With(Sort(s), k) == With(s, k) {
        InsertSpec(s[0], Sort(s[1..]), k);
        assert ([s[0]] + Sort(s[1..]))[1..] == Sort(s[1..]);
      }
    }
  }

  lemma {:induction false} WithMember(s: seq<Projection>, i: nat)
    requires i < |s|
    ensures With(s, KeyOf(s[i])) != []
  {
    if i > 0 {
      WithMember(s[1..], i - 1);
    }
  }

  lemma {:induction false} WithHas(s: seq<Projection>, k: Key)
    requires With(s, k) != []
    ensures exists i :: 0 <= i < |s| && KeyOf(s[i]) == k
  {
    if KeyOf(s[0]) != k {
      WithHas(s[1..], k);
      var i :| 0 <= i < |s[1..]| && KeyOf(s[1..][i]) == k;
      assert KeyOf(s[i + 1]) == k;
    }
  }

  /** The first element of a sorted list is bounded by that of any list with the same contents. */
  lemma FirstIsLeast(a: seq<Projection>, b: seq<Projection>)
    requires Sorted(a) && Sorted(b) && b != [] && forall k :: With(a, k) == With(b, k)
    ensures a != [] && Leq(KeyOf(a[0]), KeyOf(b[0]))
  {
    WithMember(b, 0);
    WithHas(a, KeyOf(b[0]));
    var i :| 0 <= i < |a| && KeyOf(a[i]) == KeyOf(b[0]);
    if i == 0 {
      LeqTotal(KeyOf(a[0]), KeyOf(b[0]));
    }
  }

  /** There is only one stable ordering of a list. */
  lemma {:induction false} StableSortingUnique(a: seq<Projection>, b: seq<Projection>)
    requires Sorted(a) && Sorted(b) && forall k :: With(a, k) == With(b, k)
    ensures a == b
    decreases |a| + |b|
  {
    if a == [] {
      if b != [] {
        FirstIsLeast(a, b);
      }
    } else {
      FirstIsLeast(b, a);
      FirstIsLeast(a, b);
      LeqAntisymmetric(KeyOf(a[0]), KeyOf(b[0]));
      var k := KeyOf(a[0]);
      assert With(a, k) == [a[0]] + With(a[1..], k) && With(b, k) == [b[0]] + With(b[1..], k);
      assert a[0] == With(a, k)[0] == With(b, k)[0] == b[0];
      forall k' ensures With(a[1..], k') == With(b[1..], k') {
        if k' == k {
          assert With(a[1..], k) == With(a, k)[1..] == With(b, k)[1..] == With(b[1..], k);
        } else {
          assert With(a[1..], k') == With(a, k') == With(b, k') == With(b[1..], k');
        }
      }
      StableSortingUnique(a[1..], b[1..]);
      assert a == [a[0]] + a[1..] && b == [b[0]] + b[1..];
    }
  }
}
