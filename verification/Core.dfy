/** Shared vocabulary: optional values and the outcome of a service call. */
module Core {

  datatype Option<+T> = None | Some(value: T)

  /** A service call either completes or throws an AppError with an HTTP status code. */
  datatype Outcome = Done | Refused(code: nat) {
    predicate IsFailure() {
      Refused?
    }

    function PropagateFailure(): Outcome
      requires Refused?
    {
      this
    }
  }

  /** `if (!condition) throw new AppError(..., code)` */
  function Need(condition: bool, code: nat): Outcome {
    if condition then Done else Refused(code)
  }

  predicate Distinct<T(==)>(s: seq<T>) {
    forall i, j | 0 <= i < j < |s| :: s[i] != s[j]
  }

  function Elements<T>(s: seq<T>): set<T> {
    set x | x in s
  }

  /** The next row of a result whose order the database does not promise. */
  method AnyOf<T>(rows: set<T>) returns (row: T)
    requires rows != {}
    ensures row in rows
  {
    row :| row in rows;
  }

  /** The size test `rows.length !== ids.length` used by the services recognises duplicates. */
  lemma {:induction false} DistinctCount<T>(s: seq<T>)
    ensures |Elements(s)| <= |s|
    ensures |Elements(s)| == |s| <==> Distinct(s)
  {
    if s != [] {
      var front, last := s[..|s| - 1], s[|s| - 1];
      DistinctCount(front);
      assert s == front + [last];
      assert Elements(s) == Elements(front) + {last};
      if last in front {
        var i :| 0 <= i < |front| && front[i] == last;
        assert s[i] == s[|s| - 1];
      } else {
        assert Distinct(s) <==> Distinct(front) by {
          if Distinct(front) {
            forall i, j | 0 <= i < j < |s| ensures s[i] != s[j] {
              if j < |front| { assert s[i] == front[i] && s[j] == front[j]; } else { assert s[i] == front[i]; }
            }
          }
          if Distinct(s) {
            forall i, j | 0 <= i < j < |front| ensures front[i] != front[j] {
              assert s[i] == front[i] && s[j] == front[j];
            }
          }
        }
      }
    }
  }

  /** Finding the last element of `a` in a permutation `b` of it, and what is left of both without it. */
  lemma MatchLast<T>(a: seq<T>, b: seq<T>) returns (i: nat)
    requires multiset(a) == multiset(b) && a != []
    ensures i < |b| && b[i] == a[|a| - 1]
    ensures multiset(a[..|a| - 1]) == multiset(b[..i] + b[i + 1..])
  {
    var y := a[|a| - 1];
    assert a == a[..|a| - 1] + [y];
    assert y in multiset(b);
    i :| 0 <= i < |b| && b[i] == y;
    assert b == b[..i] + [y] + b[i + 1..];
    assert multiset(a) == multiset(a[..|a| - 1]) + multiset{y};
    assert multiset(b) == multiset(b[..i] + b[i + 1..]) + multiset{y};
    assert multiset(a[..|a| - 1]) == multiset(a) - multiset{y};
    assert multiset(b[..i] + b[i + 1..]) == multiset(b) - multiset{y};
  }
}
