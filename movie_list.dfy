/** The pure part of the movie store's `appendMovies` action: the set of ids
    already in the list, the filter that keeps the records of an incoming page
    whose id is new, and the list that results from pushing those records.
    A movie record is opaque except for its `id`. */
module MovieList {

  /** A movie record: its identifier and the rest of the provider's payload,
      which the store never inspects. */
  datatype Movie = Movie(id: int, payload: string)

  /** The set of ids occurring in `movies` (`new Set(movies.map(m => m.id))`). */
  function IdsOf(movies: seq<Movie>): (ids: set<int>)
    ensures forall m :: m in movies ==> m.id in ids
    ensures forall id :: id in ids ==> exists m :: m in movies && m.id == id
  {
    set m | m in movies :: m.id
  }

  /** No two records of `movies` share an id. */
  predicate DistinctIds(movies: seq<Movie>)
  {
    forall i, j :: 0 <= i < j < |movies| ==> movies[i].id != movies[j].id
  }

  /** The records of `payload` whose id is not in `existingIds`, in payload
      order. The set is fixed for the whole pass, so two records of the payload
      that share a new id both survive. */
  function FilterNew(existingIds: set<int>, payload: seq<Movie>): (r: seq<Movie>)
    ensures |r| <= |payload|
    ensures forall m :: m in r <==> m in payload && m.id !in existingIds
    ensures IdsOf(r) !! existingIds
    decreases |payload|
  {
    if payload == [] then []
    else if payload[0].id in existingIds then FilterNew(existingIds, payload[1..])
    else [payload[0]] + FilterNew(existingIds, payload[1..])
  }

  /** The list after `appendMovies(payload)`: the old list followed by the
      records of the payload whose id the old list does not hold. */
  function Appended(movies: seq<Movie>, payload: seq<Movie>): (r: seq<Movie>)
    ensures |movies| <= |r| <= |movies| + |payload|
    ensures r[..|movies|] == movies
    ensures forall m :: m in r[|movies|..] <==> m in payload && m.id !in IdsOf(movies)
  {
    assert (movies + FilterNew(IdsOf(movies), payload))[|movies|..] == FilterNew(IdsOf(movies), payload);
    movies + FilterNew(IdsOf(movies), payload)
  }

  // ---------------------------------------------------------------------------
  // The filter: order, and the two extreme cases

  /** Filtering a concatenation filters each part and keeps the parts in order.
      With FilterSingleton this pins the filter down: it keeps exactly the
      records with a new id, in payload order. */
  lemma {:induction false} FilterConcat(ids: set<int>, a: seq<Movie>, b: seq<Movie>)
    ensures FilterNew(ids, a + b) == FilterNew(ids, a) + FilterNew(ids, b)
    decreases |a|
  {
    if a == [] {
      assert a + b == b;
    } else {
      assert (a + b)[1..] == a[1..] + b;
      assert (a + b)[0] == a[0];
      FilterConcat(ids, a[1..], b);
    }
  }

  /** A one-record payload is kept exactly when its id is new. */
  lemma FilterSingleton(ids: set<int>, m: Movie)
    ensures FilterNew(ids, [m]) == if m.id in ids then [] else [m]
  {
    assert [m][1..] == [];
  }

  /** When every id of the payload is new, every record is pushed, duplicates
      included. */
  lemma {:induction false} FilterKeepsAllNew(ids: set<int>, payload: seq<Movie>)
    requires IdsOf(payload) !! ids
    ensures FilterNew(ids, payload) == payload
    decreases |payload|
  {
    if payload != [] {
      assert payload[0] in payload;
      assert IdsOf(payload[1..]) <= IdsOf(payload) by {
        forall id | id in IdsOf(payload[1..]) ensures id in IdsOf(payload) {
          var m :| m in payload[1..] && m.id == id;
          assert m in payload;
        }
      }
      FilterKeepsAllNew(ids, payload[1..]);
      assert [payload[0]] + payload[1..] == payload;
    }
  }

  /** When every id of the payload is already known, nothing is pushed. */
  lemma FilterDropsAllKnown(ids: set<int>, payload: seq<Movie>)
    requires IdsOf(payload) <= ids
    ensures FilterNew(ids, payload) == []
  {
  }

  // ---------------------------------------------------------------------------
  // Ids and distinctness

  /** The ids of a concatenation are the union of the parts' ids. */
  lemma IdsOfConcat(a: seq<Movie>, b: seq<Movie>)
    ensures IdsOf(a + b) == IdsOf(a) + IdsOf(b)
  {
    forall id | id in IdsOf(a) + IdsOf(b) ensures id in IdsOf(a + b) {
      if id in IdsOf(a) {
        var m :| m in a && m.id == id;
        assert m in a + b;
      } else {
        var m :| m in b && m.id == id;
        assert m in a + b;
      }
    }
  }

  /** A concatenation has distinct ids exactly when both parts do and no id
      occurs in both. */
  lemma DistinctConcat(a: seq<Movie>, b: seq<Movie>)
    ensures DistinctIds(a + b) <==> DistinctIds(a) && DistinctIds(b) && IdsOf(a) !! IdsOf(b)
  {
    var c := a + b;
    if DistinctIds(c) {
      assert DistinctIds(a) by {
        forall i, j | 0 <= i < j < |a| ensures a[i].id != a[j].id {
          assert c[i] == a[i] && c[j] == a[j];
        }
      }
      assert DistinctIds(b) by {
        forall i, j | 0 <= i < j < |b| ensures b[i].id != b[j].id {
          assert c[|a| + i] == b[i] && c[|a| + j] == b[j];
        }
      }
      forall x, y | x in a && y in b ensures x.id != y.id {
        var i :| 0 <= i < |a| && a[i] == x;
        var j :| 0 <= j < |b| && b[j] == y;
        assert c[i] == x && c[|a| + j] == y;
      }
    }
    if DistinctIds(a) && DistinctIds(b) && IdsOf(a) !! IdsOf(b) {
      forall i, j | 0 <= i < j < |c| ensures c[i].id != c[j].id {
        if j < |a| {
          assert c[i] == a[i] && c[j] == a[j];
        } else if |a| <= i {
          assert c[i] == b[i - |a|] && c[j] == b[j - |a|];
        } else {
          assert c[i] == a[i] && c[j] == b[j - |a|];
          assert a[i] in a && b[j - |a|] in b;
        }
      }
    }
  }

  /** Filtering a payload with distinct ids gives a list with distinct ids. */
  lemma {:induction false} FilterDistinct(ids: set<int>, payload: seq<Movie>)
    requires DistinctIds(payload)
    ensures DistinctIds(FilterNew(ids, payload))
    decreases |payload|
  {
    if payload != [] {
      var head, tail := payload[0], payload[1..];
      assert payload == [head] + tail;
      DistinctConcat([head], tail);
      FilterDistinct(ids, tail);
      if head.id !in ids {
        var rest := FilterNew(ids, tail);
        assert IdsOf([head]) == {head.id};
        assert IdsOf([head]) !! IdsOf(rest) by {
          forall m | m in rest ensures m.id != head.id {
            assert m in tail;
          }
        }
        DistinctConcat([head], rest);
        assert DistinctIds([head]);
      }
    }
  }

  // ---------------------------------------------------------------------------
  // Properties of one append

  /** Appending an empty page leaves the list unchanged. */
  lemma AppendEmpty(movies: seq<Movie>)
    ensures Appended(movies, []) == movies
  {
    assert movies + [] == movies;
  }

  /** After an append the list holds exactly the ids of the old list and of the
      payload, whatever duplicates either contains. */
  lemma AppendedIds(movies: seq<Movie>, payload: seq<Movie>)
    ensures IdsOf(Appended(movies, payload)) == IdsOf(movies) + IdsOf(payload)
  {
    var added := FilterNew(IdsOf(movies), payload);
    IdsOfConcat(movies, added);
    forall id | id in IdsOf(payload) && id !in IdsOf(movies) ensures id in IdsOf(added) {
      var m :| m in payload && m.id == id;
      assert m in added;
    }
  }

  /** An old list and a payload that both have distinct ids append to a list
      with distinct ids. */
  lemma AppendKeepsDistinct(movies: seq<Movie>, payload: seq<Movie>)
    requires DistinctIds(movies) && DistinctIds(payload)
    ensures DistinctIds(Appended(movies, payload))
  {
    var added := FilterNew(IdsOf(movies), payload);
    FilterDistinct(IdsOf(movies), payload);
    DistinctConcat(movies, added);
  }

  /** Appending the very list that was just set pushes nothing. */
  lemma AppendSameIsIdentity(movies: seq<Movie>)
    ensures Appended(movies, movies) == movies
  {
    FilterDropsAllKnown(IdsOf(movies), movies);
    assert movies + [] == movies;
  }

  /** A payload whose records share an id that the list lacks pushes every
      copy, so the list loses its distinct ids although it had them. */
  lemma PayloadDuplicatesKept(movies: seq<Movie>, a: Movie, b: Movie)
    requires DistinctIds(movies)
    requires a.id == b.id && a.id !in IdsOf(movies)
    ensures Appended(movies, [a, b]) == movies + [a, b]
    ensures !DistinctIds(Appended(movies, [a, b]))
  {
    assert IdsOf([a, b]) == {a.id} by {
      assert a in [a, b] && b in [a, b];
    }
    FilterKeepsAllNew(IdsOf(movies), [a, b]);
    var r := movies + [a, b];
    assert r[|movies|] == a && r[|movies| + 1] == b;
  }

  // ---------------------------------------------------------------------------
  // Two appends in a row

  /** Two appends accumulate the union of all ids; with distinct ids in the
      list and in each payload, the result has distinct ids too. */
  lemma AppendTwice(movies: seq<Movie>, a: seq<Movie>, b: seq<Movie>)
    ensures IdsOf(Appended(Appended(movies, a), b)) == IdsOf(movies) + IdsOf(a) + IdsOf(b)
    ensures DistinctIds(movies) && DistinctIds(a) && DistinctIds(b) ==>
              DistinctIds(Appended(Appended(movies, a), b))
  {
    AppendedIds(movies, a);
    AppendedIds(Appended(movies, a), b);
    if DistinctIds(movies) && DistinctIds(a) && DistinctIds(b) {
      AppendKeepsDistinct(movies, a);
      AppendKeepsDistinct(Appended(movies, a), b);
    }
  }

  /** Starting from an empty list, two pages with distinct, non-overlapping ids
      end up as the first page followed by the second, each in its own order. */
  lemma AppendDisjointPagesInOrder(a: seq<Movie>, b: seq<Movie>)
    requires IdsOf(a) !! IdsOf(b)
    ensures Appended(Appended([], a), b) == a + b
  {
    assert IdsOf([]) == {};
    FilterKeepsAllNew({}, a);
    assert Appended([], a) == a;
    FilterKeepsAllNew(IdsOf(a), b);
  }

  /** The list [1, 2] with a page [2, 3] appended becomes [1, 2, 3]: the
      record with id 2 already present is kept and the incoming one dropped. */
  lemma AppendOverlapExample(p1: string, p2: string, q2: string, q3: string)
    ensures Appended([Movie(1, p1), Movie(2, p2)], [Movie(2, q2), Movie(3, q3)])
            == [Movie(1, p1), Movie(2, p2), Movie(3, q3)]
  {
    var old_ := [Movie(1, p1), Movie(2, p2)];
    assert Movie(1, p1) in old_ && Movie(2, p2) in old_;
    assert IdsOf(old_) == {1, 2};
    var page := [Movie(2, q2), Movie(3, q3)];
    assert page == [Movie(2, q2)] + [Movie(3, q3)];
    FilterConcat({1, 2}, [Movie(2, q2)], [Movie(3, q3)]);
    FilterSingleton({1, 2}, Movie(2, q2));
    FilterSingleton({1, 2}, Movie(3, q3));
  }
}
